/** Reaping converges: however many reaps were killed or failed half-way, one that is left alone with
    Docker and git healthy closes the task as its last event says. */
module Convergence {
  import opened Common
  import opened Reconcile
  import opened TaskModel
  import opened Protocol
  import opened Safety
  import opened Uninterrupted
  import Journal

  const REAP: Mode := Mode(true, false)

  /** The batch of events that is waiting: where it starts, and what a tail makes of it. */
  datatype Batch = Batch(journal: seq<byte>, classify: Journal.Classifier, from: nat, tail: Journal.Tailed) {
    /** An auto-finished task's batch whose last event closes it. */
    ghost predicate Pending() {
      && Journal.Boundary(journal, from)
      && Journal.Tail(classify, Some(journal), from) == Some(tail)
      && Closes()
    }

    /** The last event is a done, or a fail with a reason. */
    predicate Closes() {
      && IsTerminalKind(LatestKind(tail.valid))
      && (LatestKind(tail.valid) == Some(Journal.Fail) ==> LatestFailReason(tail.valid) != "")
    }

    predicate Done() {
      LatestKind(tail.valid) == Some(Journal.Done)
    }

    /** The record says what the last event said. */
    predicate ClosedBy(d: Rec) {
      if Done() then d.status == Completed && !IsFinishReason(d.failureReason)
      else d.status == Failed && d.failureReason == LatestFailReason(tail.valid)
    }

    function Closing(): Teardown {
      Teardown(if Done() then Completed else Failed, None, false, LatestFailReason(tail.valid),
               ReapAdvances(tail.offset))
    }
  }

  /** The task waits to be reaped, or was closed and the offset is still to be advanced, or is done. */
  ghost predicate Waiting(b: Batch, w: World) {
    && w.journal == b.journal && w.classify == b.classify && w.rec.autoFinish
    && (|| (w.rec.eventsOffset == b.from && AutoFinishCanRun(w.rec))
        || (w.rec.eventsOffset == b.from && b.ClosedBy(w.rec) && w.ctr.None?)
        || Closed(b, w))
  }

  ghost predicate Closed(b: Batch, w: World) {
    && w.journal == b.journal && w.classify == b.classify && w.rec.autoFinish
    && w.rec.eventsOffset == b.tail.offset && b.ClosedBy(w.rec) && w.ctr.None?
  }

  /** What the one reap at work knows. */
  ghost predicate Reaping(b: Batch, w: World, p: Proc) {
    match p
    case ListStart(mode) => mode == REAP
    case ListRead(mode, _) => mode == REAP
    case ListTail(mode, _, rec0) => mode == REAP && rec0 == w.rec
    case ListLog(mode, _, rec0, tail) => mode == REAP && rec0 == w.rec && TailNow(w, tail)
    case ListDiag(plan) => plan.mode == REAP && plan.rec0 == w.rec && TailNow(w, plan.tail)
    case ListWrite(plan) => plan.mode == REAP && plan.rec0 == w.rec && TailNow(w, plan.tail)
    case Tearing(td, pc) =>
      && td == b.Closing() && w.rec.eventsOffset == b.from
      && (pc.TdCapture? || pc.TdPolicy? || pc.TdGit? || pc.TdTerminal? ==> w.ctr.None?)
    case ReapAdvance(off) => off == b.tail.offset && b.ClosedBy(w.rec) && w.ctr.None?
    case Ended(_) => true
    case _ => false
  }

  ghost predicate TailNow(w: World, tail: Journal.Tailed) {
    Journal.Tail(w.classify, Some(w.journal), w.rec.eventsOffset) == Some(tail)
  }

  /** Reaps of one task, one after another, each possibly killed; the container may change or vanish
      and the log may grow, but the journal is at rest. */
  predicate OneReapAtATime(e: Event) {
    match e
    case Spawn(pid, command) => pid == 0 && command == List(REAP)
    case Go(pid, _) => pid == 0
    case Kill(pid) => pid == 0
    case Env(change) => !change.JournalGrows?
  }

  ghost predicate SysReaping(b: Batch, s: Sys) {
    && Waiting(b, s.w)
    && (forall pid :: pid in s.procs ==> pid == 0)
    && (0 in s.procs ==> Reaping(b, s.w, s.procs[0]))
  }

  /** Which batch a tail finds: the waiting one, or nothing more. */
  lemma TailIsBatchOrEnd(b: Batch, w: World, tail: Journal.Tailed)
    requires b.Pending() && Waiting(b, w) && TailNow(w, tail)
    ensures w.rec.eventsOffset == b.from ==> tail == b.tail
    ensures w.rec.eventsOffset == b.tail.offset ==> tail == Journal.Tailed(b.tail.offset, [], [])
    ensures b.from != b.tail.offset
  {
    TailAtEnd(b.classify, b.journal, b.from);
  }

  lemma ReapWrite(b: Batch, w: World, plan: Plan, a: Answer)
    requires b.Pending() && Waiting(b, w) && Reaping(b, w, ListWrite(plan))
    ensures var (v, q) := StepListWrite(w, plan, a); Waiting(b, v) && Reaping(b, v, q)
  {
    TailIsBatchOrEnd(b, w, plan.tail);
    ListMutatorWrites(w.rec, plan, a.text);
    TransitionsAreListEdges(w.rec.status, plan.look.state, plan.look.exit, plan.Kind());
    if w.rec.eventsOffset == b.from && AutoFinishCanRun(w.rec) {
      assert plan.InlineTeardown();
      assert ReapTeardown(plan) == b.Closing();
    } else {
      assert !plan.TerminalAutoPending();
      assert Terminal(w.rec.status);
      assert !plan.Computes().transitioned;
    }
  }

  lemma ReapTeardownStep(b: Batch, w: World, td: Teardown, pc: TdPc, a: Answer)
    requires b.Pending() && Waiting(b, w) && Reaping(b, w, Tearing(td, pc))
    ensures var (v, q) := StepTeardown(w, td, pc, a); Waiting(b, v) && Reaping(b, v, q)
  {
    assert b.from != b.tail.offset by {
      TailAtEnd(b.classify, b.journal, b.from);
    }
    if pc.TdTerminal? {
      ReapClosingStep(b, w, td, a);
    } else if pc.TdMark? {
      FailedWriteAllowsRetry(w.rec, pc.message, a.text);
    } else {
      ReapQuietStep(b, w, td, pc, a);
    }
  }

  lemma ReapClosingStep(b: Batch, w: World, td: Teardown, a: Answer)
    requires b.Closes() && w.journal == b.journal && w.classify == b.classify && w.rec.autoFinish
    requires td == b.Closing() && w.rec.eventsOffset == b.from && w.ctr.None?
    ensures var (v, q) := StepTeardown(w, td, TdTerminal, a); Waiting(b, v) && Reaping(b, v, q)
  {
    ClosingWrite(b, w.rec, a.text);
  }

  lemma ReapQuietStep(b: Batch, w: World, td: Teardown, pc: TdPc, a: Answer)
    requires !pc.TdTerminal? && !pc.TdMark? && b.from != b.tail.offset
    requires Waiting(b, w) && Reaping(b, w, Tearing(td, pc))
    ensures var (v, q) := StepTeardown(w, td, pc, a); Waiting(b, v) && Reaping(b, v, q)
  {
  }

  lemma ClosingWrite(b: Batch, d: Rec, ts: string)
    requires b.Closes()
    ensures b.ClosedBy(TerminalMutator(d, b.Closing().target, b.Closing().reason, ts))
  {
    TerminalWriteReason(d, b.Closing().target, b.Closing().reason, ts);
  }

  lemma ReapStep(b: Batch, w: World, p: Proc, a: Answer)
    requires b.Pending() && Waiting(b, w) && Reaping(b, w, p)
    ensures var (v, q) := Step(w, p, a); Waiting(b, v) && Reaping(b, v, q)
  {
    match p
    case ListWrite(plan) => ReapWrite(b, w, plan, a);
    case Tearing(td, pc) => ReapTeardownStep(b, w, td, pc, a);
    case _ =>
  }

  lemma ReapEvent(b: Batch, s: Sys, e: Event)
    requires b.Pending() && SysReaping(b, s) && OneReapAtATime(e)
    ensures SysReaping(b, Apply(s, e))
  {
    if e.Go? && 0 in s.procs {
      ReapStep(b, s.w, s.procs[0], e.answer);
    }
  }

  lemma {:induction false} ReapHistory(b: Batch, s: Sys, es: seq<Event>)
    requires b.Pending() && SysReaping(b, s)
    requires forall e :: e in es ==> OneReapAtATime(e)
    ensures SysReaping(b, Exec(s, es))
  {
    if es != [] {
      ReapHistory(b, s, es[..|es| - 1]);
      assert es[|es| - 1] in es;
      ReapEvent(b, Exec(s, es[..|es| - 1]), es[|es| - 1]);
    }
  }

  /** One healthy reap closes a waiting task. */
  lemma HealthyReapCloses(b: Batch, w: World, answers: seq<Answer>)
    requires b.Pending() && Waiting(b, w)
    requires Healthy(w, ListStart(REAP), answers, true) && |answers| >= 16
    ensures var (v, q) := Alone(w, ListStart(REAP), answers);
            && Closed(b, v) && q.Ended? && q.outcome.Listed?
            && v.rec.logMax == Max(w.rec.logMax, w.logSize) && v.logSize == w.logSize
            && q.outcome == Listed(if w.rec.eventsOffset == b.from && AutoFinishCanRun(w.rec) then 1 else 0, 0, false)
  {
    TailAtEnd(b.classify, b.journal, b.from);
    var tail := Journal.Tail(w.classify, Some(w.journal), w.rec.eventsOffset).value;
    var plan := PlanNow(w, REAP, tail);
    ReapAlone(w, answers);
    ReapRecord(b, w, plan, answers[5].text);
    var (v, q) := Alone(w, ListStart(REAP), answers);
    ReapResult(b, w, plan, answers[5].text, v, q);
  }

  /** What follows from that write and the teardown behind it. */
  lemma ReapResult(b: Batch, w: World, plan: Plan, ts: string, v: World, q: Proc)
    requires b.Closes() && w.journal == b.journal && w.classify == b.classify
    requires var d, w1 := ListMutator(w.rec, plan, ts), AfterDiag(w, plan);
             && d.autoFinish && d.logMax == Max(w.rec.logMax, w.logSize)
             && (if plan.TerminalAutoPending() then
                   q.Ended? && v.ctr.None? && SameSurroundings(w1, v) && TornDown(d, b.Closing(), v.rec, q.outcome)
                 else
                   q == Ended(Listed(0, 0, false)) && v == w1.(rec := d) && Closed(b, v))
    ensures Closed(b, v) && q.Ended?
    ensures q.outcome == Listed(if plan.TerminalAutoPending() then 1 else 0, 0, false)
    ensures v.rec.logMax == Max(w.rec.logMax, w.logSize) && v.logSize == w.logSize
  {
    if plan.TerminalAutoPending() {
      TornDownCloses(b, ListMutator(w.rec, plan, ts), v.rec, q.outcome);
    }
  }

  /** What the one write of a healthy reap makes of a waiting task. */
  lemma ReapRecord(b: Batch, w: World, plan: Plan, ts: string)
    requires b.Pending() && Waiting(b, w) && plan == PlanNow(w, REAP, plan.tail) && TailNow(w, plan.tail)
    ensures var d := ListMutator(w.rec, plan, ts);
            && d.autoFinish && d.logMax == Max(w.rec.logMax, w.logSize)
            && (plan.TerminalAutoPending() <==> w.rec.eventsOffset == b.from && AutoFinishCanRun(w.rec))
            && (plan.TerminalAutoPending() ==> ReapTeardown(plan) == b.Closing())
            && (!plan.TerminalAutoPending() ==> Closed(b, AfterDiag(w, plan).(rec := d)))
  {
    TailIsBatchOrEnd(b, w, plan.tail);
    ListMutatorWrites(w.rec, plan, ts);
    TransitionsAreListEdges(w.rec.status, plan.look.state, plan.look.exit, plan.Kind());
  }

  lemma TornDownCloses(b: Batch, d: Rec, e: Rec, o: Outcome)
    requires b.Closes() && d.autoFinish && TornDown(d, b.Closing(), e, o)
    ensures b.ClosedBy(e) && e.eventsOffset == b.tail.offset && e.autoFinish && e.logMax == d.logMax
    ensures o == Listed(1, 0, false)
  {
    var m: Rec :| TerminalFrom(d, b.Closing(), m) && e == AdvanceMutator(m, b.tail.offset);
    var ts: string :| m == TerminalMutator(d, b.Closing().target, b.Closing().reason, ts);
    ClosingWrite(b, d, ts);
  }

  /** Reaping a closed task changes nothing and reaps nothing. */
  lemma ClosedIsFinal(b: Batch, w: World, answers: seq<Answer>)
    requires b.Pending() && Closed(b, w) && w.logSize <= w.rec.logMax
    requires Healthy(w, ListStart(REAP), answers, true) && |answers| >= 16
    ensures Alone(w, ListStart(REAP), answers) == (w, Ended(Listed(0, 0, false)))
  {
    TailAtEnd(b.classify, b.journal, b.from);
    var tail := Journal.Tail(w.classify, Some(w.journal), w.rec.eventsOffset).value;
    TailIsBatchOrEnd(b, w, tail);
    ReapAlone(w, answers);
    var plan := PlanNow(w, REAP, tail);
    TransitionsAreListEdges(w.rec.status, plan.look.state, plan.look.exit, plan.Kind());
    assert plan.Kind().None?;
    assert w.errorLog + [] == w.errorLog;
    assert AfterDiag(w, plan) == w;
    assert ListMutator(w.rec, plan, answers[5].text) == w.rec;
  }

  /** The reader lets no fail event through without a reason, so a batch it makes never lacks one. */
  lemma {:induction false} FailEventsHaveReasons(rt: Journal.Runtime, lines: seq<seq<byte>>)
    requires Journal.Scan(Journal.LineCheck(rt), lines).Some?
    ensures var valid := Journal.Scan(Journal.LineCheck(rt), lines).value.0;
            LatestKind(valid) == Some(Journal.Fail) ==> LatestFailReason(valid) != ""
  {
    if lines != [] {
      FailEventsHaveReasons(rt, lines[..|lines| - 1]);
    }
  }

  /** Main result: an auto-finished task that has not ended (or was left failed by a teardown that did
      not succeed) and has a done or fail event waiting, after any history of reaps that were killed at
      any step or failed, is closed by one uninterrupted reap with Docker and git healthy: status and
      reason as the last event says, container gone, offset after the last complete line. A further
      reap changes nothing and reaps nothing. */
  lemma ReapConverges(w: World, tail: Journal.Tailed, es: seq<Event>, answers: seq<Answer>, again: seq<Answer>)
    requires w.rec.autoFinish && AutoFinishCanRun(w.rec)
    requires Batch(w.journal, w.classify, w.rec.eventsOffset, tail).Pending()
    requires forall e :: e in es ==> OneReapAtATime(e)
    requires var u := Exec(Sys(w, map[]), es).w;
             && Healthy(u, ListStart(REAP), answers, true) && |answers| >= 16
             && Healthy(Alone(u, ListStart(REAP), answers).0, ListStart(REAP), again, true) && |again| >= 16
    ensures var b := Batch(w.journal, w.classify, w.rec.eventsOffset, tail);
            var u := Exec(Sys(w, map[]), es).w;
            var (v, q) := Alone(u, ListStart(REAP), answers);
            && q.Ended? && Closed(b, v)
            && Alone(v, ListStart(REAP), again) == (v, Ended(Listed(0, 0, false)))
  {
    var b := Batch(w.journal, w.classify, w.rec.eventsOffset, tail);
    HistoryWaits(b, w, es);
    CloseThenRest(b, Exec(Sys(w, map[]), es).w, answers, again);
  }

  lemma HistoryWaits(b: Batch, w: World, es: seq<Event>)
    requires w.rec.autoFinish && AutoFinishCanRun(w.rec)
    requires w.journal == b.journal && w.classify == b.classify && w.rec.eventsOffset == b.from
    requires b.Pending() && forall e :: e in es ==> OneReapAtATime(e)
    ensures Waiting(b, Exec(Sys(w, map[]), es).w)
  {
    ReapHistory(b, Sys(w, map[]), es);
  }

  lemma CloseThenRest(b: Batch, u: World, answers: seq<Answer>, again: seq<Answer>)
    requires b.Pending() && Waiting(b, u)
    requires Healthy(u, ListStart(REAP), answers, true) && |answers| >= 16
    requires Healthy(Alone(u, ListStart(REAP), answers).0, ListStart(REAP), again, true) && |again| >= 16
    ensures var (v, q) := Alone(u, ListStart(REAP), answers);
            && q.Ended? && Closed(b, v)
            && Alone(v, ListStart(REAP), again) == (v, Ended(Listed(0, 0, false)))
  {
    HealthyReapCloses(b, u, answers);
    ClosedIsFinal(b, Alone(u, ListStart(REAP), answers).0, again);
  }

  /** The unread batch of a state. */
  function Unread(w: World, tail: Journal.Tailed): Batch {
    Batch(w.journal, w.classify, w.rec.eventsOffset, tail)
  }

  /** Main result: after any run of a fresh auto-finished task (any processes at once, events arriving
      while they work, kills), one healthy reap left alone closes the task as the last unread event says
      when that event is done or fail and the task may still be closed. A task that is closed already
      keeps its status and reason, and the reap only moves the offset to the last complete line. */
  lemma ReapAfterAnyRun(w: World, es: seq<Event>, tail: Journal.Tailed, answers: seq<Answer>)
    requires Fresh(w) && w.rec.autoFinish
    requires var u := Exec(Sys(w, map[]), es).w;
             && TailNow(u, tail) && Unread(u, tail).Closes()
             && Healthy(u, ListStart(REAP), answers, true) && |answers| >= 16
    ensures var u := Exec(Sys(w, map[]), es).w;
            var (v, q) := Alone(u, ListStart(REAP), answers);
            if AutoFinishCanRun(u.rec) then
              Closed(Unread(u, tail), v) && q == Ended(Listed(1, 0, false))
            else
              && q == Ended(Listed(0, 0, false)) && v.ctr == u.ctr
              && v.rec == u.rec.(eventsOffset := tail.offset, logMax := Max(u.rec.logMax, u.logSize))
  {
    var u := Exec(Sys(w, map[]), es).w;
    FreshOk(w);
    RunInvariant(Sys(w, map[]), es);
    ExecOk(Sys(w, map[]), es);
    if AutoFinishCanRun(u.rec) {
      HealthyReapCloses(Unread(u, tail), u, answers);
    } else {
      ClosedTaskIsSkipped(u, tail, answers);
    }
  }

  lemma ClosedTaskIsSkipped(u: World, tail: Journal.Tailed, answers: seq<Answer>)
    requires TailNow(u, tail) && !AutoFinishCanRun(u.rec)
    requires Healthy(u, ListStart(REAP), answers, true) && |answers| >= 16
    ensures var (v, q) := Alone(u, ListStart(REAP), answers);
            && q == Ended(Listed(0, 0, false)) && v.ctr == u.ctr
            && v.rec == u.rec.(eventsOffset := tail.offset, logMax := Max(u.rec.logMax, u.logSize))
  {
    ReapAlone(u, answers);
    var plan := PlanNow(u, REAP, tail);
    TransitionsAreListEdges(u.rec.status, plan.look.state, plan.look.exit, plan.Kind());
    assert !plan.HoldOffset() && !plan.Computes().transitioned;
  }
}
