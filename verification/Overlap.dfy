/** Lists and reaps of one task that overlap in any way: where they leave a closing event, when it is
    stuck (consumed, and yet the task not closed by it), and that one more reap closes the task exactly
    when it is not. */
module Overlap {
  import opened Common
  import opened Reconcile
  import opened TaskModel
  import opened Protocol
  import opened Safety
  import opened Uninterrupted
  import opened Convergence
  import Journal

  /** Any number of lists and reaps, dry ones too, killed at any step; the journal is at rest, the log may
      grow, the container may change or vanish. */
  predicate OnlyLists(e: Event) {
    match e
    case Spawn(_, command) => command.List?
    case Go(_, _) => true
    case Kill(_) => true
    case Env(change) => !change.JournalGrows?
  }

  /** The offset is past the batch, and the record does not say what its last event said. */
  ghost predicate Stuck(b: Batch, w: World) {
    && w.journal == b.journal && w.classify == b.classify && w.rec.autoFinish
    && w.rec.eventsOffset == b.tail.offset && !b.ClosedBy(w.rec)
    && AutoFinishCanRun(w.rec) && Terminal(w.rec.status) && w.ctr.None?
  }

  // ----- The invariant -----

  /** The world amid overlapping lists and reaps. */
  ghost predicate Amid(b: Batch, w: World) {
    && w.journal == b.journal && w.classify == b.classify && w.rec.autoFinish
    && (|| w.rec.eventsOffset == b.from
        || (w.rec.eventsOffset == b.tail.offset && w.ctr.None? && Terminal(w.rec.status)))
    && (AutoFinishCanRun(w.rec) || (b.ClosedBy(w.rec) && w.ctr.None?))
  }

  /** A record that one of them read at some time. */
  ghost predicate SnapshotAmid(b: Batch, w: World, rec0: Rec) {
    && rec0.autoFinish
    && (rec0.eventsOffset == b.from || (rec0.eventsOffset == b.tail.offset && Terminal(rec0.status)))
    && (!AutoFinishCanRun(rec0) ==> w.ctr.None?)
  }

  ghost predicate ReadAmid(b: Batch, w: World, rec0: Rec, tail: Journal.Tailed) {
    SnapshotAmid(b, w, rec0) && Journal.Tail(b.classify, Some(b.journal), rec0.eventsOffset) == Some(tail)
  }

  predicate PastLookup(pc: TdPc) {
    pc.TdCapture? || pc.TdPolicy? || pc.TdGit? || pc.TdTerminal?
  }

  ghost predicate ProcAmid(b: Batch, w: World, p: Proc) {
    match p
    case ListStart(_) => true
    case ListRead(_, _) => true
    case ListTail(_, _, rec0) => SnapshotAmid(b, w, rec0)
    case ListLog(_, _, rec0, tail) => ReadAmid(b, w, rec0, tail)
    case ListDiag(plan) => ReadAmid(b, w, plan.rec0, plan.tail)
    case ListWrite(plan) => ReadAmid(b, w, plan.rec0, plan.tail)
    case Tearing(td, pc) => td == b.Closing() && (PastLookup(pc) ==> w.ctr.None?)
    case ReapAdvance(off) => off == b.tail.offset && w.ctr.None? && Terminal(w.rec.status)
    case Ended(_) => true
    case _ => false
  }

  /** What no step undoes: a container that is gone, a terminal status. */
  predicate Later(w: World, v: World) {
    (w.ctr.None? ==> v.ctr.None?) && (Terminal(w.rec.status) ==> Terminal(v.rec.status))
  }

  lemma ProcStaysAmid(b: Batch, w: World, v: World, p: Proc)
    requires ProcAmid(b, w, p) && Later(w, v)
    ensures ProcAmid(b, v, p)
  {
  }

  /** What a snapshot's tail is: the batch, or nothing more. */
  lemma ReadBatchOrEnd(b: Batch, w: World, rec0: Rec, tail: Journal.Tailed)
    requires b.Pending() && ReadAmid(b, w, rec0, tail)
    ensures b.from != b.tail.offset
    ensures rec0.eventsOffset == b.from ==> tail == b.tail
    ensures rec0.eventsOffset == b.tail.offset ==> tail == Journal.Tailed(b.tail.offset, [], [])
  {
    TailAtEnd(b.classify, b.journal, b.from);
  }

  /** What a list or reap decides on from such a snapshot. */
  lemma PlanAmid(b: Batch, w: World, plan: Plan)
    requires b.Pending() && ReadAmid(b, w, plan.rec0, plan.tail)
    ensures plan.TerminalAutoPending() <==> plan.rec0.eventsOffset == b.from && AutoFinishCanRun(plan.rec0)
    ensures plan.TerminalAutoPending() ==> ReapTeardown(plan) == b.Closing()
    ensures !plan.TerminalAutoPending() ==>
              && !plan.HoldOffset() && plan.tail.offset == b.tail.offset
              && Terminal(plan.rec0.status) && !plan.Computes().transitioned
  {
    ReadBatchOrEnd(b, w, plan.rec0, plan.tail);
    if !plan.TerminalAutoPending() {
      TransitionsAreListEdges(plan.rec0.status, plan.look.state, plan.look.exit, plan.Kind());
    }
  }

  /** What the locked write of a list or reap makes of the record it finds. */
  lemma WriteAmid(b: Batch, w: World, plan: Plan, ts: string)
    requires b.Pending() && Amid(b, w) && ReadAmid(b, w, plan.rec0, plan.tail)
    ensures var d := ListMutator(w.rec, plan, ts);
            d == w.rec.(logMax := d.logMax,
                        eventsOffset := if Stale(w.rec, plan) || plan.HoldOffset() then w.rec.eventsOffset
                                        else b.tail.offset)
    ensures !Stale(w.rec, plan) && !plan.HoldOffset() ==>
              Terminal(w.rec.status) && (plan.rec0.eventsOffset == b.from ==> w.ctr.None?)
  {
    PlanAmid(b, w, plan);
  }

  lemma ListWriteAmid(b: Batch, w: World, plan: Plan, a: Answer)
    requires b.Pending() && Amid(b, w) && ReadAmid(b, w, plan.rec0, plan.tail)
    ensures var (v, q) := StepListWrite(w, plan, a); Amid(b, v) && ProcAmid(b, v, q) && Later(w, v)
  {
    PlanAmid(b, w, plan);
    WriteAmid(b, w, plan, a.text);
  }

  lemma TeardownAmid(b: Batch, w: World, td: Teardown, pc: TdPc, a: Answer)
    requires b.Closes() && Amid(b, w) && ProcAmid(b, w, Tearing(td, pc))
    ensures var (v, q) := StepTeardown(w, td, pc, a); Amid(b, v) && ProcAmid(b, v, q) && Later(w, v)
  {
    if pc.TdTerminal? {
      ClosingWrite(b, w.rec, a.text);
    } else if pc.TdMark? {
      FailedWriteAllowsRetry(w.rec, pc.message, a.text);
    }
  }

  lemma StepAmid(b: Batch, w: World, p: Proc, a: Answer)
    requires b.Pending() && Amid(b, w) && ProcAmid(b, w, p)
    ensures var (v, q) := Step(w, p, a); Amid(b, v) && ProcAmid(b, v, q) && Later(w, v)
  {
    match p
    case ListWrite(plan) => ListWriteAmid(b, w, plan, a);
    case Tearing(td, pc) => TeardownAmid(b, w, td, pc, a);
    case _ =>
  }

  ghost predicate SysAmid(b: Batch, s: Sys) {
    Amid(b, s.w) && forall pid :: pid in s.procs ==> ProcAmid(b, s.w, s.procs[pid])
  }

  lemma OthersAmid(b: Batch, s: Sys, v: World, procs: map<nat, Proc>, pid: nat)
    requires SysAmid(b, s) && Amid(b, v) && Later(s.w, v)
    requires forall q :: q in procs && q != pid ==> q in s.procs && procs[q] == s.procs[q]
    requires pid in procs ==> ProcAmid(b, v, procs[pid])
    ensures SysAmid(b, Sys(v, procs))
  {
    forall q | q in procs ensures ProcAmid(b, v, procs[q]) {
      if q != pid {
        ProcStaysAmid(b, s.w, v, s.procs[q]);
      }
    }
  }

  lemma ApplyAmid(b: Batch, s: Sys, e: Event)
    requires b.Pending() && SysAmid(b, s) && OnlyLists(e)
    ensures SysAmid(b, Apply(s, e))
  {
    match e
    case Spawn(pid, c) => OthersAmid(b, s, s.w, s.procs[pid := Start(c)], pid);
    case Go(pid, a) =>
      if pid in s.procs {
        StepAmid(b, s.w, s.procs[pid], a);
        OthersAmid(b, s, Step(s.w, s.procs[pid], a).0, s.procs[pid := Step(s.w, s.procs[pid], a).1], pid);
      }
    case Kill(pid) => OthersAmid(b, s, s.w, s.procs - {pid}, pid);
    case Env(c) =>
      forall q | q in s.procs ensures ProcAmid(b, Changed(s.w, c), s.procs[q]) {
        ProcStaysAmid(b, s.w, Changed(s.w, c), s.procs[q]);
      }
  }

  lemma {:induction false} RunAmid(b: Batch, s: Sys, es: seq<Event>)
    requires b.Pending() && SysAmid(b, s)
    requires forall e :: e in es ==> OnlyLists(e)
    ensures SysAmid(b, Exec(s, es))
  {
    if es != [] {
      var n := |es| - 1;
      RunAmid(b, s, es[..n]);
      assert OnlyLists(es[n]);
      ApplyAmid(b, Exec(s, es[..n]), es[n]);
    }
  }

  lemma AmidIsWaitingOrStuck(b: Batch, w: World)
    requires b.Pending() && Amid(b, w)
    ensures Waiting(b, w) <==> !Stuck(b, w)
  {
    TailAtEnd(b.classify, b.journal, b.from);
  }

  // ----- Main results -----

  /** Main result: an auto-finished task with a closing event unread, after any overlapping lists and
      reaps, is waiting to be reaped or closed as the event says, or it is stuck; and never both. */
  lemma OverlapLeavesWaitingOrStuck(w: World, tail: Journal.Tailed, es: seq<Event>)
    requires w.rec.autoFinish && AutoFinishCanRun(w.rec) && Unread(w, tail).Pending()
    requires forall e :: e in es ==> OnlyLists(e)
    ensures SysAmid(Unread(w, tail), Exec(Sys(w, map[]), es))
    ensures var u := Exec(Sys(w, map[]), es).w; Waiting(Unread(w, tail), u) <==> !Stuck(Unread(w, tail), u)
  {
    RunAmid(Unread(w, tail), Sys(w, map[]), es);
    AmidIsWaitingOrStuck(Unread(w, tail), Exec(Sys(w, map[]), es).w);
  }

  /** The steps at which a task that is not stuck becomes so: a failed teardown's write that finds the
      offset past the batch (and is not, by chance, what the event said); and a write that moves the
      offset past the batch, by a reap's last step or by a list that found the task closed, over a record
      that another teardown has meanwhile marked failed. */
  predicate GetsStuckAt(b: Batch, w: World, p: Proc) {
    match p
    case Tearing(_, TdMark(message)) =>
      w.rec.eventsOffset == b.tail.offset && (b.Done() || FinishReason(message) != LatestFailReason(b.tail.valid))
    case ReapAdvance(_) => !b.ClosedBy(w.rec)
    case ListWrite(plan) =>
      && w.rec.eventsOffset == b.from && !b.ClosedBy(w.rec)
      && !plan.mode.dry && !Stale(w.rec, plan) && !plan.HoldOffset()
    case _ => false
  }

  /** Main result: those are the only ones, and each of them does it. */
  lemma GetsStuckExactlyThen(b: Batch, s: Sys, e: Event)
    requires b.Pending() && SysAmid(b, s) && OnlyLists(e) && !Stuck(b, s.w)
    ensures Stuck(b, Apply(s, e).w) <==> e.Go? && e.pid in s.procs && GetsStuckAt(b, s.w, s.procs[e.pid])
  {
    ApplyAmid(b, s, e);
    AmidIsWaitingOrStuck(b, s.w);
    AmidIsWaitingOrStuck(b, Apply(s, e).w);
    TailAtEnd(b.classify, b.journal, b.from);
    if e.Go? && e.pid in s.procs {
      StepGetsStuck(b, s.w, s.procs[e.pid], e.answer);
    }
  }

  lemma StepGetsStuck(b: Batch, w: World, p: Proc, a: Answer)
    requires b.Pending() && b.from != b.tail.offset && Amid(b, w) && ProcAmid(b, w, p) && !Stuck(b, w)
    ensures var v := Step(w, p, a).0;
            (v.rec.eventsOffset == b.tail.offset && !b.ClosedBy(v.rec)) <==> GetsStuckAt(b, w, p)
  {
    match p
    case ListWrite(plan) => ListGetsStuck(b, w, plan, a);
    case Tearing(td, pc) => TeardownGetsStuck(b, w, td, pc, a);
    case _ =>
  }

  lemma ListGetsStuck(b: Batch, w: World, plan: Plan, a: Answer)
    requires b.Pending() && b.from != b.tail.offset && Amid(b, w) && ReadAmid(b, w, plan.rec0, plan.tail)
    requires !Stuck(b, w)
    ensures var v := StepListWrite(w, plan, a).0;
            (v.rec.eventsOffset == b.tail.offset && !b.ClosedBy(v.rec)) <==> GetsStuckAt(b, w, ListWrite(plan))
  {
    WriteAmid(b, w, plan, a.text);
  }

  lemma TeardownGetsStuck(b: Batch, w: World, td: Teardown, pc: TdPc, a: Answer)
    requires b.Closes() && b.from != b.tail.offset && Amid(b, w) && td == b.Closing() && !Stuck(b, w)
    ensures var v := StepTeardown(w, td, pc, a).0;
            (v.rec.eventsOffset == b.tail.offset && !b.ClosedBy(v.rec)) <==> GetsStuckAt(b, w, Tearing(td, pc))
  {
    if pc.TdTerminal? {
      ClosingWrite(b, w.rec, a.text);
    }
  }

  /** Main result: after any overlapping lists and reaps, one healthy reap left alone closes the task as
      its event says if and only if it is not stuck; on a stuck task it changes nothing but the log mark
      and reaps nothing. */
  lemma ReapClosesUnlessStuck(w: World, tail: Journal.Tailed, es: seq<Event>, answers: seq<Answer>)
    requires w.rec.autoFinish && AutoFinishCanRun(w.rec) && Unread(w, tail).Pending()
    requires forall e :: e in es ==> OnlyLists(e)
    requires Healthy(Exec(Sys(w, map[]), es).w, ListStart(REAP), answers, true) && |answers| >= 16
    ensures var b, u := Unread(w, tail), Exec(Sys(w, map[]), es).w;
            var (v, q) := Alone(u, ListStart(REAP), answers);
            && q.Ended? && (Closed(b, v) <==> !Stuck(b, u))
            && (Stuck(b, u) ==>
                  v.rec == u.rec.(logMax := Max(u.rec.logMax, u.logSize)) && q == Ended(Listed(0, 0, false)))
  {
    var b, u := Unread(w, tail), Exec(Sys(w, map[]), es).w;
    OverlapLeavesWaitingOrStuck(w, tail, es);
    if Stuck(b, u) {
      StuckReap(b, u, answers);
    } else {
      HealthyReapCloses(b, u, answers);
    }
  }

  lemma StuckReap(b: Batch, u: World, answers: seq<Answer>)
    requires b.Pending() && Stuck(b, u)
    requires Healthy(u, ListStart(REAP), answers, true) && |answers| >= 16
    ensures var (v, q) := Alone(u, ListStart(REAP), answers);
            && v.rec == u.rec.(logMax := Max(u.rec.logMax, u.logSize)) && q == Ended(Listed(0, 0, false))
            && !Closed(b, v)
  {
    TailAtEnd(b.classify, b.journal, b.from);
    ReapAlone(u, answers);
    EndPlan(PlanNow(u, REAP, Journal.Tailed(b.tail.offset, [], [])));
  }

  /** With nothing unread, a terminal task is left alone. */
  lemma EndPlan(plan: Plan)
    requires Terminal(plan.rec0.status) && plan.tail.valid == [] && plan.tail.offset == plan.rec0.eventsOffset
    ensures !plan.TerminalAutoPending() && !plan.Computes().transitioned
  {
    TransitionsAreListEdges(plan.rec0.status, plan.look.state, plan.look.exit, plan.Kind());
  }

  // ----- Nothing that lists and reaps do later helps -----

  /** A process that works on the end of the journal of a terminal task. */
  ghost predicate AtEnd(b: Batch, p: Proc) {
    match p
    case ListStart(_) => true
    case ListRead(_, _) => true
    case ListTail(_, _, rec0) => EndSnapshot(b, rec0)
    case ListLog(_, _, rec0, tail) => EndSnapshot(b, rec0) && tail == Journal.Tailed(b.tail.offset, [], [])
    case ListDiag(plan) => EndSnapshot(b, plan.rec0) && plan.tail == Journal.Tailed(b.tail.offset, [], [])
    case ListWrite(plan) => EndSnapshot(b, plan.rec0) && plan.tail == Journal.Tailed(b.tail.offset, [], [])
    case Ended(_) => true
    case _ => false
  }

  predicate EndSnapshot(b: Batch, rec0: Rec) {
    rec0.eventsOffset == b.tail.offset && Terminal(rec0.status)
  }

  /** d is e but for the log mark. */
  predicate SameButMark(d: Rec, e: Rec) {
    e == d.(logMax := e.logMax)
  }

  ghost predicate SysAtEnd(b: Batch, d: Rec, s: Sys) {
    && s.w.journal == b.journal && s.w.classify == b.classify && SameButMark(d, s.w.rec)
    && forall pid :: pid in s.procs ==> AtEnd(b, s.procs[pid])
  }

  lemma EndStep(b: Batch, d: Rec, w: World, p: Proc, a: Answer)
    requires b.Pending() && EndSnapshot(b, d) && AtEnd(b, p)
    requires w.journal == b.journal && w.classify == b.classify && SameButMark(d, w.rec)
    ensures var (v, q) := Step(w, p, a);
            v.journal == b.journal && v.classify == b.classify && SameButMark(d, v.rec) && AtEnd(b, q)
  {
    match p
    case ListTail(_, _, rec0) => TailAtEnd(b.classify, b.journal, b.from);
    case ListWrite(plan) => EndWrite(b, d, w, plan, a);
    case _ =>
  }

  lemma EndWrite(b: Batch, d: Rec, w: World, plan: Plan, a: Answer)
    requires EndSnapshot(b, d) && EndSnapshot(b, plan.rec0) && plan.tail == Journal.Tailed(b.tail.offset, [], [])
    requires SameButMark(d, w.rec)
    ensures var (v, q) := StepListWrite(w, plan, a);
            v == w.(rec := v.rec) && SameButMark(d, v.rec) && q.Ended?
  {
    TransitionsAreListEdges(plan.rec0.status, plan.look.state, plan.look.exit, plan.Kind());
  }

  lemma EndApply(b: Batch, d: Rec, s: Sys, e: Event)
    requires b.Pending() && EndSnapshot(b, d) && SysAtEnd(b, d, s) && OnlyLists(e)
    ensures SysAtEnd(b, d, Apply(s, e))
  {
    if e.Go? && e.pid in s.procs {
      EndStep(b, d, s.w, s.procs[e.pid], e.answer);
    }
  }

  lemma {:induction false} EndRun(b: Batch, d: Rec, s: Sys, es: seq<Event>)
    requires b.Pending() && EndSnapshot(b, d) && SysAtEnd(b, d, s)
    requires forall e :: e in es ==> OnlyLists(e)
    ensures SysAtEnd(b, d, Exec(s, es))
  {
    if es != [] {
      var n := |es| - 1;
      EndRun(b, d, s, es[..n]);
      assert OnlyLists(es[n]);
      EndApply(b, d, Exec(s, es[..n]), es[n]);
    }
  }

  /** Once every process has ended, a stuck task stays exactly as it is, whatever further lists and reaps
      do: the promised retry never happens. */
  lemma StuckForGood(b: Batch, s: Sys, es: seq<Event>)
    requires b.Pending() && Stuck(b, s.w) && forall pid :: pid in s.procs ==> s.procs[pid].Ended?
    requires forall e :: e in es ==> OnlyLists(e)
    ensures SameButMark(s.w.rec, Exec(s, es).w.rec) && !Closed(b, Exec(s, es).w)
  {
    EndRun(b, s.w.rec, s, es);
  }

  /** Nor does a healthy finish: it keeps the failed status. */
  lemma StuckFinishKeepsFailed(b: Batch, w: World, force: bool, override: Option<FinishPolicy>,
                               answers: seq<Answer>, gitOk: bool)
    requires Stuck(b, w) && Healthy(w, FinishStart(force, override), answers, gitOk) && |answers| >= 12
    ensures Alone(w, FinishStart(force, override), answers).0.rec.status == Failed
  {
    FinishRepairs(w, force, override, answers, gitOk);
  }
}
