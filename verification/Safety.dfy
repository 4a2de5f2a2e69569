/** What every interleaving of list, reap, finish and recover keeps. */
module Safety {
  import opened Common
  import opened Reconcile
  import opened TaskModel
  import opened Protocol
  import Journal

  // ----- Facts that only grow -----

  /** How one state of the world may follow another, over any number of steps. */
  ghost predicate Evolves(w: World, v: World) {
    && w.journal <= v.journal && v.classify == w.classify
    && w.logSize <= v.logSize
    && w.rec.logMax <= v.rec.logMax
    && v.rec.autoFinish == w.rec.autoFinish
    && (Terminal(w.rec.status) ==> Terminal(v.rec.status))
    && (w.rec.finishedAt != "" ==> v.rec.finishedAt == w.rec.finishedAt)
    && w.rec.recoveryHistory <= v.rec.recoveryHistory
    && w.nextId <= v.nextId
    && (forall id: nat :: id < w.nextId && Holds(v, id) ==> Holds(w, id))
    && w.acts <= v.acts
  }

  lemma EvolvesTransitive(u: World, w: World, v: World)
    requires Evolves(u, w) && Evolves(w, v)
    ensures Evolves(u, v)
  {
  }

  // ----- The invariant -----

  ghost predicate Numbered(history: seq<Recovery>) {
    forall i :: 0 <= i < |history| ==> history[i].recoveryCount == i + 1
  }

  ghost predicate WorldOk(w: World) {
    && Journal.Boundary(w.journal, w.rec.eventsOffset)
    && w.rec.logMax <= w.logSize
    && w.rec.recoveryCount == |w.rec.recoveryHistory| && Numbered(w.rec.recoveryHistory)
    && (w.ctr.Some? ==> w.ctr.value.id < w.nextId)
  }

  /** A record some process read earlier. */
  ghost predicate SnapshotOk(w: World, rec0: Rec) {
    && Journal.Boundary(w.journal, rec0.eventsOffset)
    && rec0.logMax <= w.rec.logMax
    && rec0.autoFinish == w.rec.autoFinish
  }

  /** A tail some process made earlier is still what those bytes say. */
  ghost predicate TailOk(w: World, from: nat, t: Journal.Tailed) {
    && from <= t.offset && Journal.Boundary(w.journal, t.offset)
    && Journal.Scan(w.classify, Journal.Lines(w.journal[from..t.offset])) == Some((t.valid, t.malformed))
  }

  ghost predicate PlanOk(w: World, plan: Plan) {
    && SnapshotOk(w, plan.rec0)
    && TailOk(w, plan.rec0.eventsOffset, plan.tail)
    && plan.rec0.logMax <= plan.logNow <= w.logSize
  }

  ghost predicate ProcOk(w: World, p: Proc) {
    match p
    case ListTail(_, _, rec0) => SnapshotOk(w, rec0)
    case ListLog(_, _, rec0, tail) => SnapshotOk(w, rec0) && TailOk(w, rec0.eventsOffset, tail)
    case ListDiag(plan) => PlanOk(w, plan)
    case ListWrite(plan) => PlanOk(w, plan)
    case ReapAdvance(off) => Journal.Boundary(w.journal, off) && Terminal(w.rec.status)
    case FinishProbe(status) => Terminal(status)
    case Tearing(td, _) =>
      && Terminal(td.target)
      && (td.after.ReapAdvances? ==> Journal.Boundary(w.journal, td.after.newOffset))
    case RecReload(_, newId) => newId < w.nextId
    case RecCommit(_, newId, _) => newId < w.nextId
    case RecKillStop(newId, _) => newId < w.nextId
    case RecKillRemove(newId, _) => newId < w.nextId
    case _ => true
  }

  ghost predicate SysOk(s: Sys) {
    WorldOk(s.w) && forall pid :: pid in s.procs ==> ProcOk(s.w, s.procs[pid])
  }

  lemma TailStays(w: World, v: World, from: nat, t: Journal.Tailed)
    requires Evolves(w, v) && TailOk(w, from, t)
    ensures TailOk(v, from, t)
  {
    assert w.journal[from..t.offset] == v.journal[from..t.offset];
  }

  /** A process's knowledge survives whatever the others do. */
  lemma ProcStays(w: World, v: World, p: Proc)
    requires Evolves(w, v) && ProcOk(w, p)
    ensures ProcOk(v, p)
  {
    match p
    case ListLog(_, _, rec0, tail) => TailStays(w, v, rec0.eventsOffset, tail);
    case ListDiag(plan) => TailStays(w, v, plan.rec0.eventsOffset, plan.tail);
    case ListWrite(plan) => TailStays(w, v, plan.rec0.eventsOffset, plan.tail);
    case _ =>
  }

  // ----- Steps keep it -----

  /** A tail taken now is what those bytes say. */
  lemma TailTakenNow(w: World, from: nat)
    requires Journal.Boundary(w.journal, from)
    requires Journal.Tail(w.classify, Some(w.journal), from).Some?
    ensures TailOk(w, from, Journal.Tail(w.classify, Some(w.journal), from).value)
  {
    var chunk := w.journal[from..];
    Journal.TailEndsAtBoundary(w.classify, w.journal, from);
    Journal.FragmentAddsNothing(w.classify, chunk);
    assert chunk[..Journal.Consumed(chunk)] == w.journal[from..from + Journal.Consumed(chunk)];
  }

  /** The write closes the task as failed because of an event that gave a reason. */
  predicate FailsAsReported(d: Rec, plan: Plan) {
    && !Stale(d, plan) && !plan.HoldOffset()
    && plan.Computes().transitioned && plan.Computes().status == Failed
    && plan.Computes().failureReason == "" && plan.FailReason() != ""
  }

  /** The fields that list writes, and how; the fields it never touches. */
  ghost predicate ListWrites(d: Rec, plan: Plan, e: Rec) {
    && e.logMax == Max(d.logMax, plan.NewMax())
    && e.eventsOffset == (if Stale(d, plan) || plan.HoldOffset() then d.eventsOffset else plan.tail.offset)
    && e.status == (if Stale(d, plan) || plan.HoldOffset() then d.status else plan.Computes().status)
    && e.finishedAt == d.finishedAt && e.recoveryHistory == d.recoveryHistory
    && e.recoveryCount == d.recoveryCount && e.autoFinish == d.autoFinish
    && (FailsAsReported(d, plan) ==> e.failureReason == plan.FailReason())
  }

  lemma ListMutatorWrites(d: Rec, plan: Plan, ts: string)
    ensures ListWrites(d, plan, ListMutator(d, plan, ts))
  {
    TransitionsAreListEdges(plan.rec0.status, plan.look.state, plan.look.exit, plan.Kind());
  }

  /** A list write changes the status along a list edge only, and never leaves a terminal status. */
  lemma ListMutatorEdge(d: Rec, plan: Plan, ts: string)
    ensures var e := ListMutator(d, plan, ts);
            e.status == d.status || (ListEdge(d.status, e.status) && !Terminal(d.status))
  {
    ListMutatorWrites(d, plan, ts);
    TransitionsAreListEdges(plan.rec0.status, plan.look.state, plan.look.exit, plan.Kind());
  }

  lemma ListWriteOk(w: World, plan: Plan, ts: string)
    requires WorldOk(w) && PlanOk(w, plan)
    ensures var v := w.(rec := ListMutator(w.rec, plan, ts)); WorldOk(v) && Evolves(w, v)
  {
    ListMutatorWrites(w.rec, plan, ts);
    ListMutatorEdge(w.rec, plan, ts);
  }

  lemma ListDiagOk(w: World, plan: Plan, a: Answer)
    requires WorldOk(w) && PlanOk(w, plan)
    ensures var (v, q) := StepList(w, ListDiag(plan), a); WorldOk(v) && ProcOk(v, q) && Evolves(w, v)
  {
    var (v, q) := StepList(w, ListDiag(plan), a);
    assert Evolves(w, v);
    TailStays(w, v, plan.rec0.eventsOffset, plan.tail);
  }

  lemma ListWriteStepOk(w: World, plan: Plan, a: Answer)
    requires WorldOk(w) && PlanOk(w, plan)
    ensures var (v, q) := StepListWrite(w, plan, a); WorldOk(v) && ProcOk(v, q) && Evolves(w, v)
  {
    ListWriteOk(w, plan, a.text);
  }

  lemma ListStepOk(w: World, p: Proc, a: Answer)
    requires WorldOk(w) && ProcOk(w, p)
    requires p.ListStart? || p.ListRead? || p.ListTail? || p.ListLog? || p.ListDiag? || p.ListWrite? || p.ReapAdvance?
    ensures var (v, q) := StepList(w, p, a); WorldOk(v) && ProcOk(v, q) && Evolves(w, v)
  {
    match p
    case ListTail(mode, look, rec0) =>
      if Journal.Tail(w.classify, Some(w.journal), rec0.eventsOffset).Some? {
        TailTakenNow(w, rec0.eventsOffset);
      }
    case ListWrite(plan) => ListWriteStepOk(w, plan, a);
    case ListDiag(plan) => ListDiagOk(w, plan, a);
    case _ =>
  }

  lemma TeardownStepOk(w: World, td: Teardown, pc: TdPc, a: Answer)
    requires WorldOk(w) && ProcOk(w, Tearing(td, pc))
    ensures var (v, q) := StepTeardown(w, td, pc, a); WorldOk(v) && ProcOk(v, q) && Evolves(w, v)
  {
    TeardownEvolves(w, td, pc, a);
    TeardownKeepsOk(w, td, pc, a);
  }

  lemma TeardownEvolves(w: World, td: Teardown, pc: TdPc, a: Answer)
    requires Terminal(td.target)
    ensures Evolves(w, StepTeardown(w, td, pc, a).0)
  {
  }

  lemma TeardownKeepsOk(w: World, td: Teardown, pc: TdPc, a: Answer)
    requires WorldOk(w) && ProcOk(w, Tearing(td, pc))
    ensures var (v, q) := StepTeardown(w, td, pc, a); WorldOk(v) && ProcOk(v, q)
  {
  }

  lemma RecoverStepOk(w: World, p: Proc, a: Answer)
    requires WorldOk(w) && ProcOk(w, p)
    requires p.RecStart? || p.RecGet? || p.RecStop? || p.RecRemove? || p.RecBanner? || p.RecRun?
          || p.RecReload? || p.RecCommit? || p.RecKillStop? || p.RecKillRemove?
    ensures var (v, q) := StepRecover(w, p, a); WorldOk(v) && ProcOk(v, q) && Evolves(w, v)
  {
    if p.RecCommit? {
      CommitOk(w, p.r, p.newId, p.digest, a);
    }
  }

  lemma CommitOk(w: World, r: Recovering, newId: nat, digest: string, a: Answer)
    requires WorldOk(w) && newId < w.nextId
    ensures var (v, q) := StepRecover(w, RecCommit(r, newId, digest), a);
            WorldOk(v) && ProcOk(v, q) && Evolves(w, v)
  {
  }

  lemma StepOk(w: World, p: Proc, a: Answer)
    requires WorldOk(w) && ProcOk(w, p)
    ensures var (v, q) := Step(w, p, a); WorldOk(v) && ProcOk(v, q) && Evolves(w, v)
  {
    match p
    case Ended(_) =>
    case Tearing(td, pc) => TeardownStepOk(w, td, pc, a);
    case FinishStart(_, _) =>
    case FinishProbe(_) =>
    case ListStart(_) => ListStepOk(w, p, a);
    case ListRead(_, _) => ListStepOk(w, p, a);
    case ListTail(_, _, _) => ListStepOk(w, p, a);
    case ListLog(_, _, _, _) => ListStepOk(w, p, a);
    case ListDiag(_) => ListStepOk(w, p, a);
    case ListWrite(_) => ListStepOk(w, p, a);
    case ReapAdvance(_) => ListStepOk(w, p, a);
    case _ => RecoverStepOk(w, p, a);
  }

  lemma ChangeOk(w: World, c: Change)
    requires WorldOk(w)
    ensures WorldOk(Changed(w, c)) && Evolves(w, Changed(w, c))
  {
  }

  lemma OthersStay(s: Sys, v: World, procs: map<nat, Proc>, pid: nat)
    requires SysOk(s) && WorldOk(v) && Evolves(s.w, v)
    requires forall q :: q in procs && q != pid ==> q in s.procs && procs[q] == s.procs[q]
    requires pid in procs ==> ProcOk(v, procs[pid])
    ensures SysOk(Sys(v, procs))
  {
    forall q | q in procs ensures ProcOk(v, procs[q]) {
      if q != pid {
        ProcStays(s.w, v, s.procs[q]);
      }
    }
  }

  lemma ApplyOk(s: Sys, e: Event)
    requires SysOk(s)
    ensures SysOk(Apply(s, e)) && Evolves(s.w, Apply(s, e).w)
  {
    match e
    case Spawn(pid, c) => OthersStay(s, s.w, s.procs[pid := Start(c)], pid);
    case Go(pid, a) =>
      if pid in s.procs {
        var (v, q) := Step(s.w, s.procs[pid], a);
        StepOk(s.w, s.procs[pid], a);
        OthersStay(s, v, s.procs[pid := q], pid);
      }
    case Kill(pid) => OthersStay(s, s.w, s.procs - {pid}, pid);
    case Env(c) =>
      ChangeOk(s.w, c);
      forall q | q in s.procs ensures ProcOk(Changed(s.w, c), s.procs[q]) {
        ProcStays(s.w, Changed(s.w, c), s.procs[q]);
      }
  }

  lemma {:induction false} ExecOk(s: Sys, es: seq<Event>)
    requires SysOk(s)
    ensures SysOk(Exec(s, es)) && Evolves(s.w, Exec(s, es).w)
  {
    if es != [] {
      ExecOk(s, es[..|es| - 1]);
      ApplyOk(Exec(s, es[..|es| - 1]), es[|es| - 1]);
      EvolvesTransitive(s.w, Exec(s, es[..|es| - 1]).w, Exec(s, es).w);
    }
  }

  lemma {:induction false} ExecInTwo(s: Sys, es: seq<Event>, fs: seq<Event>)
    ensures Exec(s, es + fs) == Exec(Exec(s, es), fs)
  {
    if fs == [] {
      assert es + fs == es;
    } else {
      assert (es + fs)[..|es + fs| - 1] == es + fs[..|fs| - 1];
      ExecInTwo(s, es, fs[..|fs| - 1]);
    }
  }

  lemma FreshOk(w: World)
    requires Fresh(w)
    ensures SysOk(Sys(w, map[]))
  {
  }

  // ----- Main results over every run -----
  // They start from any state that meets the invariant: a fresh task (FreshOk), or one on which lists
  // were at work before start had ended.

  /** Over every run: the offset is 0 or just past a newline and within the journal; the log high-water
      mark is at most the log's size; the recovery count is the length of the history, whose entries are
      numbered from one. */
  lemma RunInvariant(s0: Sys, es: seq<Event>)
    requires SysOk(s0)
    ensures WorldOk(Exec(s0, es).w)
  {
    ExecOk(s0, es);
  }

  /** Over every run: a later state keeps a terminal status terminal, a finish time as it was, the
      high-water mark, the recovery history's entries; a container that is gone stays gone. */
  lemma RunOnlyGrows(s0: Sys, es: seq<Event>, fs: seq<Event>)
    requires SysOk(s0)
    ensures Evolves(Exec(s0, es).w, Exec(s0, es + fs).w)
  {
    ExecOk(s0, es);
    ExecInTwo(s0, es, fs);
    ExecOk(Exec(s0, es), fs);
  }

  /** No list ever says that the log shrank. */
  lemma LogNeverReportedShrunk(s0: Sys, es: seq<Event>, pid: nat)
    requires SysOk(s0)
    requires var s := Exec(s0, es); pid in s.procs && (s.procs[pid].ListDiag? || s.procs[pid].ListWrite?)
    ensures !Exec(s0, es).procs[pid].plan.LogShrunk()
  {
    ExecOk(s0, es);
    assert ProcOk(Exec(s0, es).w, Exec(s0, es).procs[pid]);
  }

  /** Who may change the status, and how. */
  predicate StatusEdge(p: Proc, a: Status, b: Status) {
    || a == b
    || (p.ListWrite? && ListEdge(a, b))
    || (p.RecCommit? && a == Interrupted && b == Running)
    || (p.Tearing? && (p.pc.TdMark? || p.pc.TdTerminal?) && Terminal(b))
  }

  /** Every status change on disk is an edge of one fixed graph: list's edges, the one edge of
      recover's commit, and teardown's edges into the terminal statuses. */
  lemma StatusChangesAreEdges(s0: Sys, es: seq<Event>, e: Event)
    requires SysOk(s0)
    ensures var s := Exec(s0, es);
            var t := Apply(s, e);
            && (t.w.rec.status == s.w.rec.status
                || (e.Go? && e.pid in s.procs && StatusEdge(s.procs[e.pid], s.w.rec.status, t.w.rec.status)))
            && (Terminal(s.w.rec.status) ==> Terminal(t.w.rec.status))
  {
    var s := Exec(s0, es);
    ExecOk(s0, es);
    ApplyOk(s, e);
    if e.Go? && e.pid in s.procs {
      StepIsEdge(s.w, s.procs[e.pid], e.answer);
    }
  }

  lemma StepIsEdge(w: World, p: Proc, a: Answer)
    requires WorldOk(w) && ProcOk(w, p)
    ensures StatusEdge(p, w.rec.status, Step(w, p, a).0.rec.status)
  {
    if p.ListWrite? {
      ListMutatorEdge(w.rec, p.plan, a.text);
    }
  }

  // ----- Recoveries -----

  /** The steps of a run that take the status from interrupted to running. */
  function Recoveries(s: Sys, es: seq<Event>): nat {
    if es == [] then 0
    else
      var before := Exec(s, es[..|es| - 1]);
      var after := Exec(s, es);
      Recoveries(s, es[..|es| - 1])
      + if before.w.rec.status == Interrupted && after.w.rec.status == Running then 1 else 0
  }

  /** The recovery count grows by the number of interrupted-to-running edges of the run. */
  lemma {:induction false} CountIsRecoveries(s0: Sys, es: seq<Event>)
    requires SysOk(s0)
    ensures Exec(s0, es).w.rec.recoveryCount == s0.w.rec.recoveryCount + Recoveries(s0, es)
  {
    if es != [] {
      var before := es[..|es| - 1];
      CountIsRecoveries(s0, before);
      ExecOk(s0, before);
      CountStep(Exec(s0, before), es[|es| - 1]);
    }
  }

  lemma CountStep(s: Sys, e: Event)
    requires SysOk(s)
    ensures Apply(s, e).w.rec.recoveryCount == s.w.rec.recoveryCount
              + if s.w.rec.status == Interrupted && Apply(s, e).w.rec.status == Running then 1 else 0
  {
    if e.Go? && e.pid in s.procs {
      CountProcStep(s.w, s.procs[e.pid], e.answer);
    }
  }

  lemma CountProcStep(w: World, p: Proc, a: Answer)
    requires ProcOk(w, p)
    ensures Step(w, p, a).0.rec.recoveryCount == w.rec.recoveryCount
              + if w.rec.status == Interrupted && Step(w, p, a).0.rec.status == Running then 1 else 0
  {
    if p.ListWrite? {
      ListMutatorWrites(w.rec, p.plan, a.text);
      ListMutatorEdge(w.rec, p.plan, a.text);
    } else if p.Tearing? {
      CountTeardownStep(w, p.td, p.pc, a);
    } else if !p.RecCommit? {
      assert Step(w, p, a).0.rec.status == w.rec.status;
    }
  }

  lemma CountTeardownStep(w: World, td: Teardown, pc: TdPc, a: Answer)
    requires Terminal(td.target)
    ensures var v := StepTeardown(w, td, pc, a).0;
            v.rec.recoveryCount == w.rec.recoveryCount && (v.rec.status == w.rec.status || Terminal(v.rec.status))
  {
  }

  // ----- No terminal signal is lost -----

  /** The latest event among the complete lines between two offsets. */
  function LatestBetween(w: World, from: nat, to: nat): Option<Journal.Kind>
    requires from <= to <= |w.journal|
  {
    match Journal.Scan(w.classify, Journal.Lines(w.journal[from..to]))
    case None => None
    case Some((valid, _)) => LatestKind(valid)
  }

  /** The reason that the latest event among them gives, if it is a fail. */
  function ReasonBetween(w: World, from: nat, to: nat): string
    requires from <= to <= |w.journal|
  {
    match Journal.Scan(w.classify, Journal.Lines(w.journal[from..to]))
    case None => ""
    case Some((valid, _)) => LatestFailReason(valid)
  }

  predicate IsTerminalKind(k: Option<Journal.Kind>) {
    k == Some(Journal.Done) || k == Some(Journal.Fail)
  }

  /** A step moves the stored offset forward over a batch whose last event is done or fail. */
  predicate Consumes(w: World, v: World) {
    && v.rec.eventsOffset > w.rec.eventsOffset
    && v.rec.eventsOffset <= |w.journal|
    && IsTerminalKind(LatestBetween(w, w.rec.eventsOffset, v.rec.eventsOffset))
  }

  /** Which steps write the offset. */
  lemma OffsetWriters(w: World, p: Proc, a: Answer)
    requires Step(w, p, a).0.rec.eventsOffset != w.rec.eventsOffset
    ensures p.ReapAdvance? || (p.ListWrite? && !p.plan.mode.dry && !Stale(w.rec, p.plan) && !p.plan.HoldOffset())
  {
    if p.ListWrite? {
      ListMutatorWrites(w.rec, p.plan, a.text);
    } else if p.Tearing? {
      TeardownKeepsOffset(w, p.td, p.pc, a);
    }
  }

  lemma TeardownKeepsOffset(w: World, td: Teardown, pc: TdPc, a: Answer)
    ensures StepTeardown(w, td, pc, a).0.rec.eventsOffset == w.rec.eventsOffset
  {
  }

  /** What a consuming write does to the status, and when the signal gets lost. */
  ghost predicate SignalKept(w: World, v: World) {
    && w.rec.eventsOffset <= v.rec.eventsOffset <= |w.journal|
    && (!Terminal(v.rec.status) <==>
          !w.rec.autoFinish && (w.rec.status == Interrupted || w.rec.status.Unknown?))
    && (!Terminal(w.rec.status) && Terminal(v.rec.status) ==>
          v.rec.status ==
          if LatestBetween(w, w.rec.eventsOffset, v.rec.eventsOffset) == Some(Journal.Done) then Completed else Failed)
    && (!Terminal(w.rec.status) && v.rec.status == Failed
        && ReasonBetween(w, w.rec.eventsOffset, v.rec.eventsOffset) != "" ==>
          v.rec.failureReason == ReasonBetween(w, w.rec.eventsOffset, v.rec.eventsOffset))
  }

  lemma SignalStep(w: World, p: Proc, a: Answer)
    requires WorldOk(w) && ProcOk(w, p)
    requires Consumes(w, Step(w, p, a).0)
    ensures SignalKept(w, Step(w, p, a).0)
  {
    OffsetWriters(w, p, a);
    if p.ListWrite? {
      ListMutatorWrites(w.rec, p.plan, a.text);
      SignalListWrite(w, p.plan, Step(w, p, a).0);
    }
  }

  lemma SignalListWrite(w: World, plan: Plan, v: World)
    requires WorldOk(w) && PlanOk(w, plan)
    requires !Stale(w.rec, plan) && !plan.HoldOffset()
    requires v.journal == w.journal && ListWrites(w.rec, plan, v.rec)
    requires Consumes(w, v)
    ensures SignalKept(w, v)
  {
    assert LatestBetween(w, w.rec.eventsOffset, plan.tail.offset) == plan.Kind();
    assert ReasonBetween(w, w.rec.eventsOffset, plan.tail.offset) == plan.FailReason();
    assert plan.Computes().transitioned && plan.Computes().status == Failed ==> plan.Computes().failureReason == "";
    TerminalEventDecides(plan.rec0.status, plan.look.state, plan.look.exit, plan.Kind() == Some(Journal.Done));
    if Terminal(w.rec.status) || w.rec.status == Interrupted || w.rec.status.Unknown? {
      assert plan.Computes().status == w.rec.status;
    }
  }

  /** Main result: in every run, a write that consumes a done or fail event either finds the task
      terminal or closes it with that event's status and reason in the same write; the signal is lost exactly
      when the task is not auto-finished and is interrupted or in a status this program does not know. */
  lemma NoSignalLost(s0: Sys, es: seq<Event>, e: Event)
    requires SysOk(s0)
    requires Consumes(Exec(s0, es).w, Apply(Exec(s0, es), e).w)
    ensures SignalKept(Exec(s0, es).w, Apply(Exec(s0, es), e).w)
  {
    ExecOk(s0, es);
    var s := Exec(s0, es);
    if e.Go? && e.pid in s.procs {
      SignalStep(s.w, s.procs[e.pid], e.answer);
    }
  }

  /** The offset moves back exactly at the last step of a reap that carries a smaller one; and then the
      task is closed already. */
  lemma OffsetMovesBackIff(s0: Sys, es: seq<Event>, e: Event)
    requires SysOk(s0)
    ensures var s := Exec(s0, es);
            && (Apply(s, e).w.rec.eventsOffset < s.w.rec.eventsOffset <==>
                  e.Go? && e.pid in s.procs && s.procs[e.pid].ReapAdvance?
                  && s.procs[e.pid].newOffset < s.w.rec.eventsOffset)
            && (Apply(s, e).w.rec.eventsOffset < s.w.rec.eventsOffset ==> Terminal(s.w.rec.status))
  {
    ExecOk(s0, es);
    var s := Exec(s0, es);
    if e.Go? && e.pid in s.procs {
      StepMovesBackIff(s.w, s.procs[e.pid], e.answer);
    }
  }

  lemma StepMovesBackIff(w: World, p: Proc, a: Answer)
    requires WorldOk(w) && ProcOk(w, p)
    ensures Step(w, p, a).0.rec.eventsOffset < w.rec.eventsOffset <==>
              p.ReapAdvance? && p.newOffset < w.rec.eventsOffset
    ensures p.ReapAdvance? ==> Terminal(w.rec.status)
  {
    if Step(w, p, a).0.rec.eventsOffset != w.rec.eventsOffset {
      OffsetWriters(w, p, a);
      if p.ListWrite? {
        ListMutatorWrites(w.rec, p.plan, a.text);
      }
    }
  }

  // ----- recover's rollback -----

  /** A commit that does not go through leaves the record as it found it, and the process goes on to
      stop and remove the container it started. */
  lemma LostRaceLeavesRecord(w: World, p: Proc, a: Answer)
    requires p.RecCommit? || p.RecReload? || p.RecKillStop? || p.RecKillRemove?
    ensures var (v, q) := Step(w, p, a);
            && (v.rec != w.rec ==> p.RecCommit? && w.rec.status == Interrupted && q == Ended(Recovered))
            && v.rec.eventsOffset == w.rec.eventsOffset && v.rec.logMax == w.rec.logMax
            && (p.RecCommit? && q != Ended(Recovered) ==>
                  q == RecKillStop(p.newId, if w.rec.status != Interrupted then NotInterrupted else RecoverFailed))
            && (p.RecReload? ==> q == RecKillStop(p.newId, RecoverFailed) || q == RecCommit(p.r, p.newId, a.text))
            && (p.RecKillStop? ==> q == RecKillRemove(p.newId, p.outcome))
            && (p.RecKillRemove? ==> q == Ended(p.outcome) && (a.ok ==> !Holds(v, p.newId)))
  {
  }

  /** Main result: once a recover that lost has removed its container, no later state of any run shows
      that container again, whatever other processes did in between. */
  lemma RolledBackContainerStaysGone(s0: Sys, es: seq<Event>, pid: nat, a: Answer, fs: seq<Event>)
    requires SysOk(s0) && a.ok
    requires var s := Exec(s0, es); pid in s.procs && s.procs[pid].RecKillRemove?
    ensures var s := Exec(s0, es);
            !Holds(Exec(s0, es + [Go(pid, a)] + fs).w, s.procs[pid].newId)
  {
    var s := Exec(s0, es);
    ExecOk(s0, es);
    assert ProcOk(s.w, s.procs[pid]);
    ExecInTwo(s0, es, [Go(pid, a)]);
    assert [Go(pid, a)][..0] == [];
    assert Exec(s, [Go(pid, a)]) == Apply(s, Go(pid, a));
    LostRaceLeavesRecord(s.w, s.procs[pid], a);
    RunOnlyGrows(s0, es + [Go(pid, a)], fs);
    RunOnlyGrows(s0, es, [Go(pid, a)]);
  }
}
