/** One task, its container, journal, log and worktree, and any number of list, reap, finish and
    recover processes working on it. A process takes one step at a time: one locked update of the
    record, one file access, or one call to Docker or git, answered as the environment pleases. */
module Protocol {
  import opened Common
  import opened Reconcile
  import opened TaskModel
  import Journal

  datatype Ctr = Ctr(id: nat, state: CtrState, exit: Option<int>)

  /** What teardown has done, in order. */
  datatype Act =
    | LookedUp(found: bool)
    | LookupFailed
    | Captured
    | WorktreeRemoved
    | WroteTerminal
    | WroteFailed

  datatype World = World(
    rec: Rec,
    ctr: Option<Ctr>,                // the container that holds the task's name
    nextId: nat,                     // container ids not given out yet start here
    journal: seq<byte>,
    logSize: nat,
    worktree: bool,
    errorLog: seq<Journal.Malformed>,
    acts: seq<Act>,
    taskImage: string,
    classify: Journal.Classifier)

  /** The environment's answer to one step: whether a call raised; if it raised, whether it took
      effect all the same; and any text the step obtains (a timestamp, a digest, an error message,
      a typed reply). */
  datatype Answer = Answer(ok: bool, effect: bool, text: string)

  datatype After = FinishReturns | ReapAdvances(newOffset: nat)

  /** The arguments of one teardown. */
  datatype Teardown = Teardown(target: Status, override: Option<FinishPolicy>, allowPrompt: bool,
                               reason: string, after: After)

  datatype TdPc =
    | TdRead                          // before read_task
    | TdGet(data: Rec)                // before the first containers.get
    | TdStop(data: Rec, id: nat)
    | TdRemove(data: Rec, id: nat)
    | TdVerify(data: Rec)             // before the second containers.get
    | TdMark(message: string)         // before the failed write
    | TdCapture(data: Rec)
    | TdPolicy(data: Rec)
    | TdGit(data: Rec)
    | TdTerminal                      // before the terminal write

  /** What recover captured before it touches anything. */
  datatype Recovering = Recovering(rec0: Rec, prev: Option<Ctr>, gitState: string)

  datatype Outcome =
    | Listed(reaped: nat, wouldReap: nat, stale: bool)
    | FinishReturned
    | FinishNothingToDo
    | SystemExit
    | Recovered
    | NotInterrupted
    | RecoverFailed
    | Raised

  datatype Proc =
    | ListStart(mode: Mode)
    | ListRead(mode: Mode, look: Look)
    | ListTail(mode: Mode, look: Look, rec0: Rec)
    | ListLog(mode: Mode, look: Look, rec0: Rec, tail: Journal.Tailed)
    | ListDiag(plan: Plan)
    | ListWrite(plan: Plan)
    | ReapAdvance(newOffset: nat)
    | FinishStart(force: bool, override: Option<FinishPolicy>)
    | FinishProbe(status: Status)
    | Tearing(td: Teardown, pc: TdPc)
    | RecStart
    | RecGet(rec0: Rec)
    | RecStop(r: Recovering)
    | RecRemove(r: Recovering)
    | RecBanner(r: Recovering)
    | RecRun(r: Recovering)           // the bind mounts are checked, then the container is started
    | RecReload(r: Recovering, newId: nat)
    | RecCommit(r: Recovering, newId: nat, digest: string)
    | RecKillStop(newId: nat, outcome: Outcome)
    | RecKillRemove(newId: nat, outcome: Outcome)
    | Ended(outcome: Outcome)

  // ----- Docker -----

  function LookAt(ctr: Option<Ctr>): Look {
    match ctr
    case None => Look(CtrNotFound, None)
    case Some(c) => Look(c.state, if c.state == CtrExited then c.exit else None)
  }

  predicate Holds(w: World, id: nat) {
    w.ctr.Some? && w.ctr.value.id == id
  }

  function StopCtr(w: World, id: nat, a: Answer): World {
    if Holds(w, id) && (a.ok || a.effect) then w.(ctr := Some(w.ctr.value.(state := CtrExited))) else w
  }

  function RemoveCtr(w: World, id: nat, a: Answer): World {
    if Holds(w, id) && (a.ok || a.effect) then w.(ctr := None) else w
  }

  function NewCtr(w: World, state: CtrState): World {
    w.(ctr := Some(Ctr(w.nextId, state, None)), nextId := w.nextId + 1)
  }

  function WithAct(w: World, act: Act): World {
    w.(acts := w.acts + [act])
  }

  // ----- list and reap -----

  function StepListWrite(w: World, plan: Plan, a: Answer): (World, Proc) {
    if plan.mode.dry then (w, Ended(Listed(0, if plan.DryPending() then 1 else 0, false)))
    else
      var w1 := w.(rec := ListMutator(w.rec, plan, a.text));
      if Stale(w.rec, plan) then (w1, Ended(Listed(0, 0, true)))
      else if plan.InlineTeardown() then
        var target := if plan.Kind() == Some(Journal.Done) then Completed else Failed;
        (w1, Tearing(Teardown(target, None, false, plan.FailReason(), ReapAdvances(plan.tail.offset)), TdRead))
      else (w1, Ended(Listed(0, 0, false)))
  }

  function StepList(w: World, p: Proc, a: Answer): (World, Proc)
    requires p.ListStart? || p.ListRead? || p.ListTail? || p.ListLog? || p.ListDiag? || p.ListWrite? || p.ReapAdvance?
  {
    match p
    case ListStart(mode) =>
      if a.ok then (w, ListRead(mode, LookAt(w.ctr))) else (w, Ended(Raised))
    case ListRead(mode, look) => (w, ListTail(mode, look, w.rec))
    case ListTail(mode, look, rec0) =>
      (match Journal.Tail(w.classify, Some(w.journal), rec0.eventsOffset)
       case None => (w, Ended(Raised))
       case Some(t) => (w, ListLog(mode, look, rec0, t)))
    case ListLog(mode, look, rec0, tail) => (w, ListDiag(Plan(mode, look, rec0, tail, w.logSize)))
    case ListDiag(plan) =>
      if plan.Defers() || plan.mode.dry then (w, ListWrite(plan))
      else (w.(errorLog := w.errorLog + plan.tail.malformed), ListWrite(plan))
    case ListWrite(plan) => StepListWrite(w, plan, a)
    case ReapAdvance(newOffset) => (w.(rec := AdvanceMutator(w.rec, newOffset)), Ended(Listed(1, 0, false)))
  }

  // ----- teardown_and_mark -----

  function Exits(td: Teardown): Outcome {
    if td.after.FinishReturns? then SystemExit else Listed(0, 0, false)
  }

  function Returns(td: Teardown): Proc {
    match td.after
    case FinishReturns => Ended(FinishReturned)
    case ReapAdvances(off) => ReapAdvance(off)
  }

  function StepTeardown(w: World, td: Teardown, pc: TdPc, a: Answer): (World, Proc) {
    match pc
    case TdRead => (w, Tearing(td, TdGet(w.rec)))
    case TdGet(data) =>
      if a.ok && w.ctr.Some? then (w, Tearing(td, TdStop(data, w.ctr.value.id)))
      else (w, Tearing(td, TdVerify(data)))
    case TdStop(data, id) => (StopCtr(w, id, a), Tearing(td, TdRemove(data, id)))
    case TdRemove(data, id) => (RemoveCtr(w, id, a), Tearing(td, TdVerify(data)))
    case TdVerify(data) =>
      if !a.ok then (WithAct(w, LookupFailed), Tearing(td, TdMark(a.text)))
      else if w.ctr.Some? then (WithAct(w, LookedUp(true)), Tearing(td, TdMark(a.text)))
      else (WithAct(w, LookedUp(false)), Tearing(td, TdCapture(data)))
    case TdMark(message) =>
      (WithAct(w.(rec := FailedMutator(w.rec, message, a.text)), WroteFailed), Ended(Exits(td)))
    case TdCapture(data) =>
      (WithAct(w, Captured), Tearing(td, if data.project then TdPolicy(data) else TdTerminal))
    case TdPolicy(data) =>
      var policy := ResolveFinishPolicy(td.override, data.policy, td.allowPrompt, a.ok, a.text);
      var repo := data.repoPath || a.effect;   // effect: the projects.yaml lookup finds the repository
      (w, Tearing(td, if policy == DeleteWorktree && repo && data.worktreePath then TdGit(data) else TdTerminal))
    case TdGit(data) =>
      if !w.worktree then (w, Tearing(td, TdTerminal))
      else if a.ok then (WithAct(w.(worktree := false), WorktreeRemoved), Tearing(td, TdTerminal))
      else if a.effect then (WithAct(w.(worktree := false), WorktreeRemoved), Tearing(td, TdMark(a.text)))
      else (w, Tearing(td, TdMark(a.text)))
    case TdTerminal =>
      (WithAct(w.(rec := TerminalMutator(w.rec, td.target, td.reason, a.text)), WroteTerminal), Returns(td))
  }

  // ----- finish -----

  function FinishTeardown(target: Status, override: Option<FinishPolicy>): Proc {
    Tearing(Teardown(target, override, true, "", FinishReturns), TdRead)
  }

  function StepFinish(w: World, p: Proc, a: Answer): (World, Proc)
    requires p.FinishStart? || p.FinishProbe?
  {
    match p
    case FinishStart(force, override) =>
      if !Terminal(w.rec.status) then (w, FinishTeardown(Completed, override))
      else if force || override.Some? then (w, FinishTeardown(w.rec.status, override))
      else (w, FinishProbe(w.rec.status))
    case FinishProbe(status) =>
      if a.ok && w.ctr.Some? then (w, FinishTeardown(status, None)) else (w, Ended(FinishNothingToDo))
  }

  // ----- recover -----

  /** What recover records of an operation that was going on in the worktree: only project tasks have one. */
  function GitState(rec0: Rec, found: string): string {
    if rec0.project && rec0.worktreePath then found else ""
  }

  function RecoveryEntry(w: World, r: Recovering, digest: string, ts: string): Recovery {
    Recovery(ts, 0,
             if r.prev.Some? then Some(r.prev.value.id) else None,
             if r.prev.Some? then r.prev.value.exit else None,
             r.rec0.imageDigest, digest, r.rec0.imageTag, w.taskImage, r.gitState)
  }

  function StepRecover(w: World, p: Proc, a: Answer): (World, Proc)
    requires p.RecStart? || p.RecGet? || p.RecStop? || p.RecRemove? || p.RecBanner? || p.RecRun?
          || p.RecReload? || p.RecCommit? || p.RecKillStop? || p.RecKillRemove?
  {
    match p
    case RecStart =>
      if w.rec.status == Interrupted then (w, RecGet(w.rec)) else (w, Ended(NotInterrupted))
    case RecGet(rec0) =>
      if a.ok && w.ctr.Some? then (w, RecStop(Recovering(rec0, w.ctr, GitState(rec0, a.text))))
      else (w, RecBanner(Recovering(rec0, None, GitState(rec0, a.text))))
    case RecStop(r) => (if r.prev.Some? then StopCtr(w, r.prev.value.id, a) else w, RecRemove(r))
    case RecRemove(r) => (if r.prev.Some? then RemoveCtr(w, r.prev.value.id, a) else w, RecBanner(r))
    case RecBanner(r) => (if a.ok then w.(logSize := w.logSize + |a.text|) else w, RecRun(r))
    case RecRun(r) =>
      if w.ctr.Some? then (w, Ended(RecoverFailed))
      else if a.ok then (NewCtr(w, CtrRunning), RecReload(r, w.nextId))
      else if a.effect then (NewCtr(w, CtrCreated), Ended(RecoverFailed))
      else (w, Ended(RecoverFailed))
    case RecReload(r, newId) =>
      if a.ok && Holds(w, newId) then (w, RecCommit(r, newId, a.text)) else (w, RecKillStop(newId, RecoverFailed))
    case RecCommit(r, newId, digest) =>
      if w.rec.status != Interrupted then (w, RecKillStop(newId, NotInterrupted))
      else if !a.ok then (w, RecKillStop(newId, RecoverFailed))
      else (w.(rec := RecoverMutator(w.rec, RecoveryEntry(w, r, digest, a.text), a.text).value), Ended(Recovered))
    case RecKillStop(newId, outcome) => (StopCtr(w, newId, a), RecKillRemove(newId, outcome))
    case RecKillRemove(newId, outcome) => (RemoveCtr(w, newId, a), Ended(outcome))
  }

  /** One step of one process. */
  function Step(w: World, p: Proc, a: Answer): (World, Proc) {
    match p
    case Ended(_) => (w, p)
    case Tearing(td, pc) => StepTeardown(w, td, pc, a)
    case FinishStart(_, _) => StepFinish(w, p, a)
    case FinishProbe(_) => StepFinish(w, p, a)
    case ListStart(_) => StepList(w, p, a)
    case ListRead(_, _) => StepList(w, p, a)
    case ListTail(_, _, _) => StepList(w, p, a)
    case ListLog(_, _, _, _) => StepList(w, p, a)
    case ListDiag(_) => StepList(w, p, a)
    case ListWrite(_) => StepList(w, p, a)
    case ReapAdvance(_) => StepList(w, p, a)
    case _ => StepRecover(w, p, a)
  }

  // ----- Many processes -----

  datatype Command = List(mode: Mode) | Finish(force: bool, override: Option<FinishPolicy>) | Recover

  function Start(c: Command): Proc {
    match c
    case List(mode) => ListStart(mode)
    case Finish(force, override) => FinishStart(force, override)
    case Recover => RecStart
  }

  /** What may happen without any of the processes: nothing of it writes the record. */
  datatype Change =
    | JournalGrows(bytes: seq<byte>)
    | LogGrows(n: nat)
    | CtrChanges(state: CtrState, exit: Option<int>)
    | CtrVanishes
    | WorktreeVanishes

  function Changed(w: World, c: Change): World {
    match c
    case JournalGrows(bytes) => w.(journal := w.journal + bytes)
    case LogGrows(n) => w.(logSize := w.logSize + n)
    case CtrChanges(state, exit) =>
      if w.ctr.None? then w else w.(ctr := Some(w.ctr.value.(state := state, exit := exit)))
    case CtrVanishes => w.(ctr := None)
    case WorktreeVanishes => w.(worktree := false)
  }

  datatype Sys = Sys(w: World, procs: map<nat, Proc>)

  datatype Event =
    | Spawn(pid: nat, command: Command)   // replaces, and so kills, a process of the same number
    | Go(pid: nat, answer: Answer)
    | Kill(pid: nat)
    | Env(change: Change)

  function Apply(s: Sys, e: Event): Sys {
    match e
    case Spawn(pid, command) => s.(procs := s.procs[pid := Start(command)])
    case Go(pid, answer) =>
      if pid !in s.procs then s
      else
        var (w, p) := Step(s.w, s.procs[pid], answer);
        Sys(w, s.procs[pid := p])
    case Kill(pid) => s.(procs := s.procs - {pid})
    case Env(change) => s.(w := Changed(s.w, change))
  }

  function Exec(s: Sys, es: seq<Event>): Sys {
    if es == [] then s else Apply(Exec(s, es[..|es| - 1]), es[|es| - 1])
  }

  /** A record as the start command leaves it, before anything was read from the journal. */
  predicate Fresh(w: World) {
    && w.rec.eventsOffset == 0 && w.rec.logMax == 0
    && w.rec.recoveryCount == 0 && w.rec.recoveryHistory == []
    && (w.ctr.Some? ==> w.ctr.value.id < w.nextId)
  }

  /** One process on its own: the answers to its steps, in order. */
  function Alone(w: World, p: Proc, answers: seq<Answer>): (World, Proc) {
    if answers == [] then (w, p)
    else
      var (w1, p1) := Alone(w, p, answers[..|answers| - 1]);
      Step(w1, p1, answers[|answers| - 1])
  }
}
