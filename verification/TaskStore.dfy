/** The task record store: every update is lock, read, mutate, temp file, fsync, rename, unlock, any
    number of processes at once, each of which may raise or be killed between any two of those. */
module TaskStore {
  import opened Common

  /** A mutator maps the record it is given to a new one, or raises. */
  type Mutator<!R> = R -> Option<R>

  datatype Content<R> = Whole(rec: R) | Cut

  datatype File<R> = File(content: Content<R>, synced: bool)

  datatype Stage =
    | Waiting      // lock file open, flock not granted
    | Holding      // exclusive lock granted
    | HasRead      // record loaded
    | HasNew       // mutator returned
    | TempOpen     // temp file created, nothing durable in it
    | TempWhole    // record dumped and flushed
    | TempSynced   // fsync returned
    | Published    // renamed over task.json
    | Returned     // lock released, new record returned
    | Unlinking    // an exception after the temp file was made
    | Raising      // an exception, lock still held
    | Raised

  datatype ReaderStage = ReadWaiting | ReadHolding | ReadDone

  datatype Proc<!R> =
    | Updater(stage: Stage, mut: Mutator<R>, data: R, made: R, ticket: nat)
    | Reader(rstage: ReaderStage, got: Option<Content<R>>)

  /** One published update, with the number of the lock grant it was made under. */
  datatype Entry<!R> = Entry(pid: nat, ticket: nat, mut: Mutator<R>)

  datatype Sys<!R> = Sys(
    empty: R,                         // what an absent record reads as
    first: Option<R>,                 // record before the run
    versions: seq<Option<File<R>>>,   // every file task.json has named, the last one now
    temps: map<nat, File<R>>,
    exclusive: Option<nat>,
    shared: set<nat>,
    procs: map<nat, Proc<R>>,
    used: set<nat>,
    grants: nat,
    log: seq<Entry<R>>
  )

  datatype Event<!R> =
    | StartUpdate(pid: nat, mut: Mutator<R>)
    | StartRead(pid: nat)
    | Go(pid: nat, ok: bool)   // the process's next step; not ok: it raises
    | Kill(pid: nat)
    | PowerLoss(keep: nat)     // all processes die; renames after the first `keep` are undone

  function Initial<R>(empty: R, first: Option<R>): Sys<R> {
    var v: Option<File<R>> := if first.None? then None else Some(File(Whole(first.value), true));
    Sys(empty, first, [v], map[], None, {}, map[], {}, 0, [])
  }

  function Visible<R>(s: Sys<R>): Option<File<R>>
    requires s.versions != []
  {
    s.versions[|s.versions| - 1]
  }

  // ----- Steps -----

  function Release<R>(s: Sys<R>, pid: nat): Sys<R> {
    s.(exclusive := if s.exclusive == Some(pid) then None else s.exclusive, shared := s.shared - {pid})
  }

  function SetStage<R>(s: Sys<R>, pid: nat, p: Proc<R>, stage: Stage): Sys<R>
    requires p.Updater?
  {
    s.(procs := s.procs[pid := p.(stage := stage)])
  }

  function UpdaterStep<R>(s: Sys<R>, pid: nat, p: Proc<R>, ok: bool): Sys<R>
    requires s.versions != [] && p.Updater?
  {
    match p.stage
    case Waiting =>
      if s.exclusive.None? && s.shared == {} then
        s.(exclusive := Some(pid), grants := s.grants + 1,
           procs := s.procs[pid := p.(stage := Holding, ticket := s.grants)])
      else s
    case Holding =>
      (match Visible(s)
       case None => s.(procs := s.procs[pid := p.(stage := HasRead, data := s.empty)])
       case Some(File(Whole(r), _)) => s.(procs := s.procs[pid := p.(stage := HasRead, data := r)])
       case Some(File(Cut, _)) => SetStage(s, pid, p, Raising))
    case HasRead =>
      (match p.mut(p.data)
       case Some(n) => s.(procs := s.procs[pid := p.(stage := HasNew, made := n)])
       case None => SetStage(s, pid, p, Raising))
    case HasNew =>
      if ok then SetStage(s.(temps := s.temps[pid := File(Cut, false)]), pid, p, TempOpen)
      else SetStage(s, pid, p, Raising)
    case TempOpen =>
      if ok then SetStage(s.(temps := s.temps[pid := File(Whole(p.made), false)]), pid, p, TempWhole)
      else SetStage(s, pid, p, Unlinking)
    case TempWhole =>
      if ok then SetStage(s.(temps := s.temps[pid := File(Whole(p.made), true)]), pid, p, TempSynced)
      else SetStage(s, pid, p, Unlinking)
    case TempSynced =>
      if ok && pid in s.temps then
        SetStage(s.(versions := s.versions + [Some(s.temps[pid])], temps := s.temps - {pid},
                    log := s.log + [Entry(pid, p.ticket, p.mut)]), pid, p, Published)
      else SetStage(s, pid, p, Unlinking)
    case Published => SetStage(Release(s, pid), pid, p, Returned)
    case Unlinking => SetStage(s.(temps := s.temps - {pid}), pid, p, Raising)
    case Raising => SetStage(Release(s, pid), pid, p, Raised)
    case Returned => s
    case Raised => s
  }

  function ReaderStep<R>(s: Sys<R>, pid: nat, p: Proc<R>): Sys<R>
    requires s.versions != [] && p.Reader?
  {
    match p.rstage
    case ReadWaiting =>
      if s.exclusive.None? then
        s.(shared := s.shared + {pid}, procs := s.procs[pid := p.(rstage := ReadHolding)])
      else s
    case ReadHolding =>
      var got := if Visible(s).None? then None else Some(Visible(s).value.content);
      Release(s, pid).(procs := s.procs[pid := Reader(ReadDone, got)])
    case ReadDone => s
  }

  function AfterPowerLoss<R>(v: Option<File<R>>): Option<File<R>> {
    if v.Some? && !v.value.synced then Some(File(Cut, true)) else v
  }

  function Apply<R>(s: Sys<R>, e: Event<R>): (t: Sys<R>)
    requires s.versions != []
    ensures t.versions != []
  {
    match e
    case StartUpdate(pid, mut) =>
      if pid in s.used then s
      else s.(used := s.used + {pid}, procs := s.procs[pid := Updater(Waiting, mut, s.empty, s.empty, 0)])
    case StartRead(pid) =>
      if pid in s.used then s
      else s.(used := s.used + {pid}, procs := s.procs[pid := Reader(ReadWaiting, None)])
    case Go(pid, ok) =>
      if pid !in s.procs then s
      else if s.procs[pid].Updater? then UpdaterStep(s, pid, s.procs[pid], ok)
      else ReaderStep(s, pid, s.procs[pid])
    case Kill(pid) => Release(s, pid).(procs := s.procs - {pid})
    case PowerLoss(keep) =>
      if keep >= |s.versions| || keep > |s.log| then s
      else
        s.(versions := seq(keep + 1, i requires 0 <= i <= keep => AfterPowerLoss(s.versions[i])),
           log := s.log[..keep], procs := map[], exclusive := None, shared := {},
           temps := map p | p in s.temps :: AfterPowerLoss(Some(s.temps[p])).value)
  }

  function Exec<R>(s: Sys<R>, es: seq<Event<R>>): (t: Sys<R>)
    requires s.versions != []
    ensures t.versions != []
    decreases |es|
  {
    if es == [] then s else Exec(Apply(s, es[0]), es[1..])
  }

  // ----- The specification: one update after another -----

  /** The record after the first updates of the log, applied one by one. */
  function Replay<R>(r: R, log: seq<Entry<R>>): Option<R> {
    if log == [] then Some(r)
    else
      match Replay(r, log[..|log| - 1])
      case None => None
      case Some(d) => log[|log| - 1].mut(d)
  }

  function Base<R>(s: Sys<R>): R {
    if s.first.None? then s.empty else s.first.value
  }

  // ----- The invariant -----

  predicate Holds(stage: Stage) {
    stage != Waiting && stage != Returned && stage != Raised
  }

  /** task.json always names a synced, whole file: the replay of the log. */
  ghost predicate VersionsOk<R>(s: Sys<R>) {
    && |s.versions| == |s.log| + 1
    && s.versions[0] == Initial(s.empty, s.first).versions[0]
    && forall k :: 1 <= k <= |s.log| ==>
         && Replay(Base(s), s.log[..k]).Some?
         && s.versions[k] == Some(File(Whole(Replay(Base(s), s.log[..k]).value), true))
  }

  /** Updates are logged in the order their locks were granted, each process at most once. */
  ghost predicate LogOk<R>(s: Sys<R>) {
    && (forall i, j :: 0 <= i < j < |s.log| ==> s.log[i].ticket < s.log[j].ticket)
    && (forall i, j :: 0 <= i < j < |s.log| ==> s.log[i].pid != s.log[j].pid)
    && (forall i :: 0 <= i < |s.log| ==> s.log[i].ticket < s.grants && s.log[i].pid in s.used)
  }

  ghost predicate LocksOk<R>(s: Sys<R>) {
    && s.procs.Keys <= s.used
    && (s.exclusive.Some? ==>
          && s.shared == {}
          && s.exclusive.value in s.procs
          && s.procs[s.exclusive.value].Updater? && Holds(s.procs[s.exclusive.value].stage))
    && (forall p :: p in s.procs && s.procs[p].Updater? && Holds(s.procs[p].stage) ==> s.exclusive == Some(p))
    && (forall p :: p in s.shared ==> p in s.procs && s.procs[p].Reader? && s.procs[p].rstage == ReadHolding)
  }

  predicate Unlogged<R>(s: Sys<R>, pid: nat) {
    forall i :: 0 <= i < |s.log| ==> s.log[i].pid != pid
  }

  ghost predicate UpdaterOk<R>(s: Sys<R>, pid: nat, p: Proc<R>)
    requires p.Updater?
  {
    var now := Replay(Base(s), s.log);
    && (Holds(p.stage) && p.stage != Published ==>
          p.ticket < s.grants && forall i :: 0 <= i < |s.log| ==> s.log[i].ticket < p.ticket)
    && (p.stage != Published && p.stage != Returned ==> Unlogged(s, pid))
    && (p.stage in {HasRead, HasNew, TempOpen, TempWhole, TempSynced} ==> now == Some(p.data))
    && (p.stage in {HasNew, TempOpen, TempWhole, TempSynced} ==> p.mut(p.data) == Some(p.made))
    && (p.stage == TempSynced ==> pid in s.temps && s.temps[pid] == File(Whole(p.made), true))
    && (p.stage == Published || p.stage == Returned ==> Committed(s, pid, p))
  }

  /** The update is in the log, and what it returns is the replay up to and including it. */
  ghost predicate Committed<R>(s: Sys<R>, pid: nat, p: Proc<R>)
    requires p.Updater?
  {
    exists k :: 0 <= k < |s.log| && s.log[k] == Entry(pid, p.ticket, p.mut)
             && Replay(Base(s), s.log[..k + 1]) == Some(p.made)
  }

  /** A finished read saw the record at one point of the log. */
  ghost predicate ReaderOk<R>(s: Sys<R>, p: Proc<R>)
    requires p.Reader? && s.versions != []
  {
    p.rstage == ReadDone ==>
      exists k :: 0 <= k < |s.versions|
               && p.got == if s.versions[k].None? then None else Some(s.versions[k].value.content)
  }

  ghost predicate Inv<R>(s: Sys<R>) {
    && s.versions != []
    && VersionsOk(s) && LogOk(s) && LocksOk(s)
    && forall pid :: pid in s.procs ==>
         if s.procs[pid].Updater? then UpdaterOk(s, pid, s.procs[pid]) else ReaderOk(s, s.procs[pid])
  }

  lemma InitialInv<R>(empty: R, first: Option<R>)
    ensures Inv(Initial(empty, first))
  {
  }

  lemma NowIsVisible<R>(s: Sys<R>)
    requires Inv(s)
    ensures Replay(Base(s), s.log).Some?
    ensures Visible(s).Some? ==> Visible(s).value == File(Whole(Replay(Base(s), s.log).value), true)
    ensures Visible(s).None? ==> Replay(Base(s), s.log) == Some(s.empty)
  {
    assert s.log[..|s.log|] == s.log;
  }

  /** Steps that change neither the log nor the files task.json has named, and touch only the locks,
      the temp files and one process. */
  lemma QuietStep<R>(s: Sys<R>, t: Sys<R>, pid: nat)
    requires Inv(s)
    requires t.empty == s.empty && t.first == s.first && t.versions == s.versions && t.log == s.log
    requires s.grants <= t.grants && s.used <= t.used
    requires LocksOk(t)
    requires forall q :: q != pid && q in t.procs ==> q in s.procs && t.procs[q] == s.procs[q]
    requires forall q :: q != pid && q in s.temps ==> q in t.temps && t.temps[q] == s.temps[q]
    requires pid in t.procs ==>
               if t.procs[pid].Updater? then UpdaterOk(t, pid, t.procs[pid]) else ReaderOk(t, t.procs[pid])
    ensures Inv(t)
  {
    forall q | q in t.procs && q != pid
      ensures if t.procs[q].Updater? then UpdaterOk(t, q, t.procs[q]) else ReaderOk(t, t.procs[q])
    {
      if t.procs[q].Updater? {
        assert UpdaterOk(s, q, s.procs[q]);
      } else {
        assert ReaderOk(s, s.procs[q]);
      }
    }
  }

  lemma ReplayOneMore<R>(r: R, log: seq<Entry<R>>, entry: Entry<R>, d: R)
    requires Replay(r, log) == Some(d)
    ensures Replay(r, log + [entry]) == entry.mut(d)
  {
    assert (log + [entry])[..|log|] == log;
  }

  lemma VersionsGrow<R>(s: Sys<R>, t: Sys<R>, entry: Entry<R>, made: R)
    requires VersionsOk(s)
    requires t.empty == s.empty && t.first == s.first
    requires t.log == s.log + [entry] && t.versions == s.versions + [Some(File(Whole(made), true))]
    requires Replay(Base(s), t.log) == Some(made)
    ensures VersionsOk(t)
  {
    forall k | 1 <= k <= |t.log|
      ensures Replay(Base(t), t.log[..k]).Some?
      ensures t.versions[k] == Some(File(Whole(Replay(Base(t), t.log[..k]).value), true))
    {
      if k <= |s.log| {
        assert t.log[..k] == s.log[..k];
        assert t.versions[k] == s.versions[k];
      } else {
        assert t.log[..k] == t.log;
      }
    }
  }

  /** Renaming appends one version and one log entry that agree. */
  lemma PublishVersions<R>(s: Sys<R>, pid: nat, p: Proc<R>, t: Sys<R>)
    requires s.versions != [] && VersionsOk(s) && p.Updater? && UpdaterOk(s, pid, p) && p.stage == TempSynced
    requires t == UpdaterStep(s, pid, p, true)
    ensures VersionsOk(t) && Committed(t, pid, t.procs[pid])
  {
    var entry := Entry(pid, p.ticket, p.mut);
    assert t.log == s.log + [entry];
    assert t.versions == s.versions + [Some(File(Whole(p.made), true))];
    ReplayOneMore(Base(s), s.log, entry, p.data);
    VersionsGrow(s, t, entry, p.made);
    assert t.log[..|s.log| + 1] == t.log && t.log[|s.log|] == entry;
  }

  /** What another process knows about the log stays true when an entry is added. */
  lemma PublishOther<R>(s: Sys<R>, t: Sys<R>, entry: Entry<R>, q: nat, p: Proc<R>)
    requires Inv(s) && q in s.procs && p == s.procs[q] && q != entry.pid
    requires p.Updater? ==> !Holds(p.stage)
    requires t.first == s.first && t.empty == s.empty && t.log == s.log + [entry]
    requires |t.versions| > |s.versions| && t.versions[..|s.versions|] == s.versions
    ensures if p.Updater? then UpdaterOk(t, q, p) else ReaderOk(t, p)
  {
    if p.Updater? {
      assert UpdaterOk(s, q, p);
      if p.stage == Returned {
        var k :| 0 <= k < |s.log| && s.log[k] == Entry(q, p.ticket, p.mut)
              && Replay(Base(s), s.log[..k + 1]) == Some(p.made);
        assert t.log[k] == s.log[k] && t.log[..k + 1] == s.log[..k + 1];
      }
    } else if p.rstage == ReadDone {
      assert ReaderOk(s, p);
      var k :| 0 <= k < |s.versions|
            && p.got == if s.versions[k].None? then None else Some(s.versions[k].value.content);
      assert t.versions[..|s.versions|][k] == t.versions[k];
    }
  }

  lemma HeldStepLocks<R>(s: Sys<R>, t: Sys<R>, pid: nat)
    requires LocksOk(s) && pid in s.procs && pid in t.procs
    requires t.exclusive == s.exclusive && t.shared == s.shared && t.used == s.used
    requires t.procs == s.procs[pid := t.procs[pid]]
    requires s.procs[pid].Updater? && Holds(s.procs[pid].stage)
    requires t.procs[pid].Updater? && Holds(t.procs[pid].stage)
    ensures LocksOk(t)
  {
  }

  lemma PublishLog<R>(s: Sys<R>, t: Sys<R>, entry: Entry<R>)
    requires LogOk(s) && Unlogged(s, entry.pid) && entry.pid in s.used && entry.ticket < s.grants
    requires forall i :: 0 <= i < |s.log| ==> s.log[i].ticket < entry.ticket
    requires t.log == s.log + [entry] && t.grants == s.grants && t.used == s.used
    ensures LogOk(t)
  {
  }

  lemma PublishStep<R>(s: Sys<R>, pid: nat)
    requires Inv(s) && pid in s.procs && s.procs[pid].Updater? && s.procs[pid].stage == TempSynced
    ensures Inv(UpdaterStep(s, pid, s.procs[pid], true))
  {
    var p := s.procs[pid];
    var t := UpdaterStep(s, pid, p, true);
    var entry := Entry(pid, p.ticket, p.mut);
    assert UpdaterOk(s, pid, p);
    assert VersionsOk(t) && Committed(t, pid, t.procs[pid]) by {
      PublishVersions(s, pid, p, t);
    }
    assert LogOk(t) by {
      PublishLog(s, t, entry);
    }
    assert LocksOk(t) by {
      HeldStepLocks(s, t, pid);
    }
    PublishOthers(s, t, entry);
  }

  lemma PublishOthers<R>(s: Sys<R>, t: Sys<R>, entry: Entry<R>)
    requires Inv(s) && entry.pid in s.procs && s.exclusive == Some(entry.pid)
    requires t.first == s.first && t.empty == s.empty && t.log == s.log + [entry]
    requires |t.versions| == |s.versions| + 1 && t.versions[..|s.versions|] == s.versions
    requires forall q :: q in t.procs && q != entry.pid ==> q in s.procs && t.procs[q] == s.procs[q]
    ensures forall q :: q in t.procs && q != entry.pid ==>
              if t.procs[q].Updater? then UpdaterOk(t, q, t.procs[q]) else ReaderOk(t, t.procs[q])
  {
    forall q | q in t.procs && q != entry.pid
      ensures if t.procs[q].Updater? then UpdaterOk(t, q, t.procs[q]) else ReaderOk(t, t.procs[q])
    {
      PublishOther(s, t, entry, q, s.procs[q]);
    }
  }

  lemma LockStepInv<R>(s: Sys<R>, pid: nat, ok: bool)
    requires Inv(s) && pid in s.procs && s.procs[pid].Updater?
    requires s.procs[pid].stage in {Waiting, Published, Raising}
    ensures Inv(UpdaterStep(s, pid, s.procs[pid], ok))
  {
    var p := s.procs[pid];
    var t := UpdaterStep(s, pid, p, ok);
    assert UpdaterOk(s, pid, p);
    if t != s {
      assert LocksOk(t);
      assert UpdaterOk(t, pid, t.procs[pid]);
      QuietStep(s, t, pid);
    }
  }

  /** A step that publishes nothing and releases nothing touches one process and its temp file. */
  lemma HeldStepFrame<R>(s: Sys<R>, pid: nat, p: Proc<R>, ok: bool)
    requires s.versions != [] && pid in s.procs && p.Updater?
    requires Holds(p.stage) && p.stage !in {Published, Raising}
    requires !(p.stage == TempSynced && ok)
    ensures var t := UpdaterStep(s, pid, p, ok);
            && t.procs == s.procs[pid := t.procs[pid]] && t.procs[pid].Updater?
            && Holds(t.procs[pid].stage)
            && t.log == s.log && t.versions == s.versions && t.empty == s.empty && t.first == s.first
            && t.exclusive == s.exclusive && t.shared == s.shared && t.used == s.used && t.grants == s.grants
            && forall q :: q != pid && q in s.temps ==> q in t.temps && t.temps[q] == s.temps[q]
  {
  }

  /** Loading the record gives the replay so far; mutating applies the mutator to it. */
  lemma ReadStepProc<R>(s: Sys<R>, pid: nat, p: Proc<R>, ok: bool)
    requires Inv(s) && pid in s.procs && p == s.procs[pid] && p.Updater?
    requires p.stage == Holding || p.stage == HasRead
    ensures var t := UpdaterStep(s, pid, p, ok);
            t.procs[pid].Updater? && UpdaterOk(t, pid, t.procs[pid])
  {
    assert UpdaterOk(s, pid, p);
    if p.stage == Holding {
      NowIsVisible(s);
      LoadStepProc(s, pid, p, ok);
    } else {
      MutateStepProc(s, pid, p, ok);
    }
  }

  lemma LoadStepProc<R>(s: Sys<R>, pid: nat, p: Proc<R>, ok: bool)
    requires s.versions != [] && p.Updater? && p.stage == Holding && UpdaterOk(s, pid, p)
    requires Visible(s).Some? ==>
               Replay(Base(s), s.log).Some? && Visible(s).value == File(Whole(Replay(Base(s), s.log).value), true)
    requires Visible(s).None? ==> Replay(Base(s), s.log) == Some(s.empty)
    ensures var t := UpdaterStep(s, pid, p, ok);
            t.procs[pid].Updater? && UpdaterOk(t, pid, t.procs[pid])
  {
  }

  lemma MutateStepProc<R>(s: Sys<R>, pid: nat, p: Proc<R>, ok: bool)
    requires s.versions != [] && p.Updater? && p.stage == HasRead && UpdaterOk(s, pid, p)
    ensures var t := UpdaterStep(s, pid, p, ok);
            t.procs[pid].Updater? && UpdaterOk(t, pid, t.procs[pid])
  {
  }

  lemma TempStepProc<R>(s: Sys<R>, pid: nat, p: Proc<R>, ok: bool)
    requires s.versions != [] && p.Updater? && UpdaterOk(s, pid, p)
    requires p.stage in {HasNew, TempOpen, TempWhole, TempSynced, Unlinking}
    requires !(p.stage == TempSynced && ok)
    ensures var t := UpdaterStep(s, pid, p, ok);
            t.procs[pid].Updater? && UpdaterOk(t, pid, t.procs[pid])
  {
  }

  lemma HeldStepInv<R>(s: Sys<R>, pid: nat, ok: bool)
    requires Inv(s) && pid in s.procs && s.procs[pid].Updater?
    requires Holds(s.procs[pid].stage) && s.procs[pid].stage !in {Published, Raising}
    requires !(s.procs[pid].stage == TempSynced && ok)
    ensures Inv(UpdaterStep(s, pid, s.procs[pid], ok))
  {
    var p := s.procs[pid];
    var t := UpdaterStep(s, pid, p, ok);
    HeldStepFrame(s, pid, p, ok);
    HeldStepLocks(s, t, pid);
    if p.stage == Holding || p.stage == HasRead {
      ReadStepProc(s, pid, p, ok);
    } else {
      assert UpdaterOk(s, pid, p);
      TempStepProc(s, pid, p, ok);
    }
    QuietStep(s, t, pid);
  }

  lemma UpdaterStepInv<R>(s: Sys<R>, pid: nat, ok: bool)
    requires Inv(s) && pid in s.procs && s.procs[pid].Updater?
    ensures Inv(UpdaterStep(s, pid, s.procs[pid], ok))
  {
    var stage := s.procs[pid].stage;
    if stage == TempSynced && ok {
      assert UpdaterOk(s, pid, s.procs[pid]);
      PublishStep(s, pid);
    } else if stage in {Waiting, Published, Raising} {
      LockStepInv(s, pid, ok);
    } else if Holds(stage) {
      HeldStepInv(s, pid, ok);
    }
  }

  lemma ReaderStepInv<R>(s: Sys<R>, pid: nat)
    requires Inv(s) && pid in s.procs && s.procs[pid].Reader?
    ensures Inv(ReaderStep(s, pid, s.procs[pid]))
  {
    var p := s.procs[pid];
    var t := ReaderStep(s, pid, p);
    if t != s {
      assert LocksOk(t);
      if p.rstage == ReadHolding {
        var k := |t.versions| - 1;
        assert t.procs[pid].got == if t.versions[k].None? then None else Some(t.versions[k].value.content);
      }
      QuietStep(s, t, pid);
    }
  }

  lemma PowerLossInv<R>(s: Sys<R>, keep: nat)
    requires Inv(s)
    ensures Inv(Apply(s, PowerLoss(keep)))
  {
    var t := Apply(s, PowerLoss(keep));
    if keep <= |s.log| {
      assert forall k :: 0 <= k <= keep ==> t.log[..k] == s.log[..k];
      assert forall k :: 0 <= k <= keep ==> t.versions[k] == s.versions[k];
    }
  }

  lemma StepInv<R>(s: Sys<R>, e: Event<R>)
    requires Inv(s)
    ensures Inv(Apply(s, e))
  {
    var t := Apply(s, e);
    match e
    case StartUpdate(pid, mut) =>
      if pid !in s.used {
        assert LocksOk(t);
        QuietStep(s, t, pid);
      }
    case StartRead(pid) =>
      if pid !in s.used {
        assert LocksOk(t);
        QuietStep(s, t, pid);
      }
    case Go(pid, ok) =>
      if pid in s.procs {
        if s.procs[pid].Updater? {
          UpdaterStepInv(s, pid, ok);
        } else {
          ReaderStepInv(s, pid);
        }
      }
    case Kill(pid) =>
      assert LocksOk(t);
      QuietStep(s, t, pid);
    case PowerLoss(keep) =>
      PowerLossInv(s, keep);
  }

  lemma {:induction false} ExecInv<R>(s: Sys<R>, es: seq<Event<R>>)
    requires Inv(s)
    ensures Inv(Exec(s, es))
    decreases |es|
  {
    if es != [] {
      StepInv(s, es[0]);
      ExecInv(Apply(s, es[0]), es[1..]);
    }
  }

  // ----- Main results -----

  /** Whatever the processes do and wherever they die, the visible record is whole and synced, and it
      is the starting record with the published updates applied one after another in lock order. */
  lemma UpdatesAreSequential<R>(empty: R, first: Option<R>, es: seq<Event<R>>)
    ensures var s := Exec(Initial(empty, first), es);
            && Base(s) == (if first.None? then empty else first.value)
            && Replay(Base(s), s.log).Some?
            && (Visible(s).Some? ==> Visible(s).value == File(Whole(Replay(Base(s), s.log).value), true))
            && (Visible(s).None? ==> first.None? && s.log == [])
            && (forall i, j :: 0 <= i < j < |s.log| ==>
                  s.log[i].ticket < s.log[j].ticket && s.log[i].pid != s.log[j].pid)
  {
    InitialInv(empty, first);
    ExecInv(Initial(empty, first), es);
    ExecKeepsStart(Initial(empty, first), es);
    NowIsVisible(Exec(Initial(empty, first), es));
  }

  lemma {:induction false} ExecKeepsStart<R>(s: Sys<R>, es: seq<Event<R>>)
    requires s.versions != []
    ensures Exec(s, es).empty == s.empty && Exec(s, es).first == s.first
    decreases |es|
  {
    if es != [] {
      ExecKeepsStart(Apply(s, es[0]), es[1..]);
    }
  }

  /** An update that returned was published once, saw everything published before it, and returned the
      record it made; one that raised, or has not published yet, left nothing behind. */
  lemma OutcomeMatchesLog<R>(empty: R, first: Option<R>, es: seq<Event<R>>, pid: nat)
    requires var s := Exec(Initial(empty, first), es); pid in s.procs && s.procs[pid].Updater?
    ensures var s := Exec(Initial(empty, first), es);
            var p := s.procs[pid];
            if p.stage == Returned || p.stage == Published then
              exists k :: (0 <= k < |s.log| && s.log[k] == Entry(pid, p.ticket, p.mut)
                           && Replay(Base(s), s.log[..k + 1]) == Some(p.made)
                           && forall j :: 0 <= j < |s.log| && j != k ==> s.log[j].pid != pid)
            else
              forall j :: 0 <= j < |s.log| ==> s.log[j].pid != pid
  {
    InitialInv(empty, first);
    ExecInv(Initial(empty, first), es);
    var s := Exec(Initial(empty, first), es);
    assert UpdaterOk(s, pid, s.procs[pid]);
  }

  /** Only a power loss takes an update out of the log: no other step loses one that was published. */
  lemma NoLostUpdate<R>(s: Sys<R>, e: Event<R>)
    requires s.versions != [] && !e.PowerLoss?
    ensures s.log <= Apply(s, e).log && |Apply(s, e).log| <= |s.log| + 1
    ensures Apply(s, e).log != s.log ==>
              && e.Go? && e.pid in s.procs && s.procs[e.pid].Updater? && s.procs[e.pid].stage == TempSynced
              && Apply(s, e).log == s.log + [Entry(e.pid, s.procs[e.pid].ticket, s.procs[e.pid].mut)]
  {
  }

  /** The record read is whole and is the replay of the first k log entries; None for no record yet. */
  ghost predicate SawReplay<R>(s: Sys<R>, got: Option<Content<R>>, k: int) {
    && 0 <= k <= |s.log|
    && if got.None? then k == 0 && s.first.None?
       else Replay(Base(s), s.log[..k]).Some? && got.value == Whole(Replay(Base(s), s.log[..k]).value)
  }

  /** A read that started when the log had n entries is alive only while they are all there, and has seen
      a version no older than the n-th. */
  ghost predicate ReadSince<R>(s: Sys<R>, pid: nat, n: nat) {
    && pid in s.used
    && (pid in s.procs ==>
          && n <= |s.log| && s.procs[pid].Reader?
          && (s.procs[pid].rstage == ReadDone ==> SawSince(s, s.procs[pid].got, n)))
  }

  ghost predicate SawSince<R>(s: Sys<R>, got: Option<Content<R>>, n: nat) {
    exists k :: n <= k && SawReplay(s, got, k)
  }

  lemma SeesNow<R>(s: Sys<R>)
    requires Inv(s)
    ensures SawReplay(s, if Visible(s).None? then None else Some(Visible(s).value.content), |s.log|)
  {
    NowIsVisible(s);
    assert s.log[..|s.log|] == s.log;
    if Visible(s).None? {
      assert |s.log| == 0;
    }
  }

  lemma SawReplayStays<R>(s: Sys<R>, t: Sys<R>, got: Option<Content<R>>, k: int)
    requires SawReplay(s, got, k) && t.empty == s.empty && t.first == s.first && s.log <= t.log
    ensures SawReplay(t, got, k)
  {
    assert t.log[..k] == s.log[..k];
  }

  lemma SawSinceStays<R>(s: Sys<R>, t: Sys<R>, got: Option<Content<R>>, n: nat)
    requires SawSince(s, got, n) && t.empty == s.empty && t.first == s.first && s.log <= t.log
    ensures SawSince(t, got, n)
  {
    var k :| n <= k && SawReplay(s, got, k);
    SawReplayStays(s, t, got, k);
  }

  lemma ReadSinceStep<R>(s: Sys<R>, e: Event<R>, pid: nat, n: nat)
    requires Inv(s) && ReadSince(s, pid, n)
    ensures ReadSince(Apply(s, e), pid, n)
  {
    var t := Apply(s, e);
    if pid in t.procs {
      LogGrows(s, e);
      ReaderIsKept(s, e, pid);
      ReadSinceNext(s, t, pid, n);
    }
  }

  lemma ReadSinceNext<R>(s: Sys<R>, t: Sys<R>, pid: nat, n: nat)
    requires Inv(s) && ReadSince(s, pid, n) && pid in s.procs && pid in t.procs && pid in t.used
    requires s.log <= t.log && t.empty == s.empty && t.first == s.first
    requires t.procs[pid] == s.procs[pid] || ReaderMoves(s, s.procs[pid], t.procs[pid])
    ensures ReadSince(t, pid, n)
  {
    if s.procs[pid].rstage == ReadDone {
      SawSinceStays(s, t, s.procs[pid].got, n);
    } else if t.procs[pid].rstage == ReadDone {
      SeesNow(s);
      SawSinceStays(s, t, t.procs[pid].got, n);
    }
  }

  /** A reader's own next steps: the lock, or the read and the release. */
  ghost predicate ReaderMoves<R>(s: Sys<R>, p: Proc<R>, q: Proc<R>)
    requires s.versions != [] && p.Reader?
  {
    || (p.rstage == ReadWaiting && q == p.(rstage := ReadHolding))
    || (p.rstage == ReadHolding
        && q == Reader(ReadDone, if Visible(s).None? then None else Some(Visible(s).value.content)))
  }

  /** What an event does to a reader: nothing, or its own next step. */
  lemma ReaderIsKept<R>(s: Sys<R>, e: Event<R>, pid: nat)
    requires s.versions != [] && pid in s.used && pid in Apply(s, e).procs
    ensures pid in s.procs && Apply(s, e).empty == s.empty && Apply(s, e).first == s.first
    ensures s.procs[pid].Reader? ==>
              Apply(s, e).procs[pid] == s.procs[pid] || ReaderMoves(s, s.procs[pid], Apply(s, e).procs[pid])
  {
    if e.Go? && e.pid in s.procs && s.procs[e.pid].Updater? {
      UpdaterTouchesItself(s, e.pid, e.ok);
    }
  }

  lemma UpdaterTouchesItself<R>(s: Sys<R>, pid: nat, ok: bool)
    requires s.versions != [] && pid in s.procs && s.procs[pid].Updater?
    ensures var t := UpdaterStep(s, pid, s.procs[pid], ok);
            && t.empty == s.empty && t.first == s.first
            && pid in t.procs && t.procs == s.procs[pid := t.procs[pid]]
  {
    var p := s.procs[pid];
    if Holds(p.stage) && p.stage !in {Published, Raising} && !(p.stage == TempSynced && ok) {
      HeldStepFrame(s, pid, p, ok);
    } else {
      OtherStepFrame(s, pid, p, ok);
    }
  }

  lemma OtherStepFrame<R>(s: Sys<R>, pid: nat, p: Proc<R>, ok: bool)
    requires s.versions != [] && pid in s.procs && p == s.procs[pid] && p.Updater?
    requires !Holds(p.stage) || p.stage in {Published, Raising} || (p.stage == TempSynced && ok)
    ensures var t := UpdaterStep(s, pid, p, ok);
            && t.empty == s.empty && t.first == s.first
            && pid in t.procs && t.procs == s.procs[pid := t.procs[pid]]
  {
  }

  /** While any process is alive no power was lost, and the log only grows. */
  lemma LogGrows<R>(s: Sys<R>, e: Event<R>)
    requires s.versions != [] && Apply(s, e).procs != map[]
    ensures s.log <= Apply(s, e).log
  {
    if !e.PowerLoss? {
      NoLostUpdate(s, e);
    }
  }

  lemma {:induction false} ReadSinceRun<R>(s: Sys<R>, es: seq<Event<R>>, pid: nat, n: nat)
    requires Inv(s) && ReadSince(s, pid, n)
    ensures ReadSince(Exec(s, es), pid, n)
    decreases |es|
  {
    if es != [] {
      StepInv(s, es[0]);
      ReadSinceStep(s, es[0], pid, n);
      ReadSinceRun(Apply(s, es[0]), es[1..], pid, n);
    }
  }

  /** A finished read returned a whole record, one that the log passed through, and no older than the
      latest when the read was started: it sees every update that had been published by then. */
  lemma ReadsSeeWholeRecords<R>(empty: R, first: Option<R>, before: seq<Event<R>>, pid: nat, after: seq<Event<R>>)
    requires var s := Exec(Initial(empty, first), before);
             var t := Exec(Apply(s, StartRead(pid)), after);
             pid !in s.used && pid in t.procs && t.procs[pid].Reader? && t.procs[pid].rstage == ReadDone
    ensures var s := Exec(Initial(empty, first), before);
            var t := Exec(Apply(s, StartRead(pid)), after);
            SawSince(t, t.procs[pid].got, |s.log|)
  {
    InitialInv(empty, first);
    ExecInv(Initial(empty, first), before);
    var s := Exec(Initial(empty, first), before);
    StepInv(s, StartRead(pid));
    ReadSinceRun(Apply(s, StartRead(pid)), after, pid, |s.log|);
  }

  // ----- Temp files -----

  predicate MayHaveTemp(p: Proc) {
    p.Updater? && p.stage in {TempOpen, TempWhole, TempSynced, Unlinking}
  }

  ghost predicate TempsOk<R>(s: Sys<R>) {
    && s.procs.Keys <= s.used && s.temps.Keys <= s.used
    && forall pid :: pid in s.procs && pid in s.temps ==> MayHaveTemp(s.procs[pid])
  }

  lemma TempsStep<R>(s: Sys<R>, e: Event<R>)
    requires s.versions != [] && TempsOk(s)
    ensures TempsOk(Apply(s, e))
  {
    if e.Go? && e.pid in s.procs && s.procs[e.pid].Updater? {
      TempsUpdaterStep(s, e.pid, e.ok);
    }
  }

  lemma TempsUpdaterStep<R>(s: Sys<R>, pid: nat, ok: bool)
    requires s.versions != [] && TempsOk(s) && pid in s.procs && s.procs[pid].Updater?
    ensures TempsOk(UpdaterStep(s, pid, s.procs[pid], ok))
  {
    var t := UpdaterStep(s, pid, s.procs[pid], ok);
    assert t.procs.Keys <= s.used;
    assert forall q :: q != pid ==> (q in t.temps <==> q in s.temps);
    assert pid in t.procs && pid in t.temps ==> MayHaveTemp(t.procs[pid]);
  }

  lemma {:induction false} ExecTemps<R>(s: Sys<R>, es: seq<Event<R>>)
    requires s.versions != [] && TempsOk(s)
    ensures TempsOk(Exec(s, es))
    decreases |es|
  {
    if es != [] {
      TempsStep(s, es[0]);
      ExecTemps(Apply(s, es[0]), es[1..]);
    }
  }

  /** An update that has returned or raised has left no temp file; only one that was killed may. */
  lemma NoTempLeftBehind<R>(empty: R, first: Option<R>, es: seq<Event<R>>, pid: nat)
    requires var s := Exec(Initial(empty, first), es); pid in s.procs && pid in s.temps
    ensures var p := Exec(Initial(empty, first), es).procs[pid];
            p.Updater? && p.stage != Returned && p.stage != Raised && p.stage != Published
  {
    ExecTemps(Initial(empty, first), es);
    assert MayHaveTemp(Exec(Initial(empty, first), es).procs[pid]);
  }

  // ----- One update left alone -----

  const READ_STEPS: nat := 3      // lock, read, mutate
  const TEMP_STEPS: nat := 3      // create, write, fsync
  const PUBLISH_STEPS: nat := 2   // rename, unlock
  const UPDATE_STEPS: nat := READ_STEPS + TEMP_STEPS + PUBLISH_STEPS

  /** k steps of one process, none of which raises. */
  function Undisturbed<R>(s: Sys<R>, pid: nat, k: nat): (t: Sys<R>)
    requires s.versions != []
    ensures t.versions != []
  {
    if k == 0 then s else Apply(Undisturbed(s, pid, k - 1), Go(pid, true))
  }

  /** What an update does from the lock grant to the mutator's return. */
  lemma ToMutated<R>(s: Sys<R>, pid: nat, mut: Mutator<R>, d: R)
    requires Inv(s) && s.exclusive.None? && s.shared == {} && pid !in s.used
    requires Replay(Base(s), s.log) == Some(d) && mut(d).Some?
    ensures Undisturbed(Apply(s, StartUpdate(pid, mut)), pid, READ_STEPS) ==
            s.(used := s.used + {pid}, exclusive := Some(pid), grants := s.grants + 1,
               procs := s.procs[pid := Updater(HasNew, mut, d, mut(d).value, s.grants)])
  {
    var s0 := Apply(s, StartUpdate(pid, mut));
    var s1 := Apply(s0, Go(pid, true));
    var s2 := Apply(s1, Go(pid, true));
    LockGranted(s, pid, mut);
    RecordRead(s, pid, mut, d);
    ThreeSteps(s0, pid, s1, s2, Apply(s2, Go(pid, true)));
  }

  /** The two steps under the lock. */
  lemma RecordRead<R>(s: Sys<R>, pid: nat, mut: Mutator<R>, d: R)
    requires Inv(s) && Replay(Base(s), s.log) == Some(d) && mut(d).Some?
    ensures var s1 := s.(used := s.used + {pid}, exclusive := Some(pid), grants := s.grants + 1,
                         procs := s.procs[pid := Updater(Holding, mut, s.empty, s.empty, s.grants)]);
            var s2 := s1.(procs := s.procs[pid := Updater(HasRead, mut, d, s.empty, s.grants)]);
            && Apply(s1, Go(pid, true)) == s2
            && Apply(s2, Go(pid, true)) == s1.(procs := s.procs[pid := Updater(HasNew, mut, d, mut(d).value, s.grants)])
  {
    NowIsVisible(s);
  }

  lemma ThreeSteps<R>(s: Sys<R>, pid: nat, s1: Sys<R>, s2: Sys<R>, s3: Sys<R>)
    requires s.versions != []
    requires s1 == Apply(s, Go(pid, true)) && s2 == Apply(s1, Go(pid, true)) && s3 == Apply(s2, Go(pid, true))
    ensures Undisturbed(s, pid, 3) == s3
  {
    UndisturbedStep(s, pid, 1);
    UndisturbedStep(s, pid, 2);
    UndisturbedStep(s, pid, 3);
  }

  lemma LockGranted<R>(s: Sys<R>, pid: nat, mut: Mutator<R>)
    requires s.versions != [] && s.exclusive.None? && s.shared == {} && pid !in s.used
    ensures Apply(Apply(s, StartUpdate(pid, mut)), Go(pid, true)) ==
            s.(used := s.used + {pid}, exclusive := Some(pid), grants := s.grants + 1,
               procs := s.procs[pid := Updater(Holding, mut, s.empty, s.empty, s.grants)])
  {
  }

  function WithTemp<R>(s: Sys<R>, pid: nat, p: Proc<R>, file: File<R>, stage: Stage): Sys<R>
    requires p.Updater?
  {
    s.(temps := s.temps[pid := file], procs := s.procs[pid := p.(stage := stage)])
  }

  lemma TempOpens<R>(s: Sys<R>, pid: nat, p: Proc<R>)
    requires s.versions != [] && pid in s.procs && p == s.procs[pid] && p.Updater? && p.stage == HasNew
    ensures Apply(s, Go(pid, true)) == WithTemp(s, pid, p, File(Cut, false), TempOpen)
  {
  }

  lemma TempFills<R>(s: Sys<R>, pid: nat, p: Proc<R>, file: File<R>)
    requires s.versions != [] && p.Updater?
    ensures Apply(WithTemp(s, pid, p, file, TempOpen), Go(pid, true))
         == WithTemp(s, pid, p, File(Whole(p.made), false), TempWhole)
  {
  }

  lemma TempSyncs<R>(s: Sys<R>, pid: nat, p: Proc<R>, file: File<R>)
    requires s.versions != [] && p.Updater?
    ensures Apply(WithTemp(s, pid, p, file, TempWhole), Go(pid, true))
         == WithTemp(s, pid, p, File(Whole(p.made), true), TempSynced)
  {
  }

  lemma TempWritten<R>(s: Sys<R>, pid: nat)
    requires s.versions != [] && pid in s.procs && s.procs[pid].Updater? && s.procs[pid].stage == HasNew
    ensures var p := s.procs[pid];
            Undisturbed(s, pid, TEMP_STEPS) ==
            s.(temps := s.temps[pid := File(Whole(p.made), true)], procs := s.procs[pid := p.(stage := TempSynced)])
  {
    var p := s.procs[pid];
    var s1 := WithTemp(s, pid, p, File(Cut, false), TempOpen);
    var s2 := WithTemp(s, pid, p, File(Whole(p.made), false), TempWhole);
    ThreeSteps(s, pid, s1, s2, WithTemp(s, pid, p, File(Whole(p.made), true), TempSynced)) by {
      TempOpens(s, pid, p);
      TempFills(s, pid, p, File(Cut, false));
      TempSyncs(s, pid, p, File(Whole(p.made), false));
    }
  }

  lemma FromTempWritten<R>(s: Sys<R>, pid: nat)
    requires s.versions != [] && pid in s.procs && s.procs[pid].Updater? && s.procs[pid].stage == TempSynced
    requires s.exclusive == Some(pid) && pid in s.temps
    ensures var p := s.procs[pid];
            Undisturbed(s, pid, PUBLISH_STEPS) ==
            s.(versions := s.versions + [Some(s.temps[pid])], temps := s.temps - {pid},
               log := s.log + [Entry(pid, p.ticket, p.mut)], exclusive := None, shared := s.shared - {pid},
               procs := s.procs[pid := p.(stage := Returned)])
  {
    var p := s.procs[pid];
    UndisturbedStep(s, pid, PUBLISH_STEPS - 1);
    UndisturbedStep(s, pid, PUBLISH_STEPS);
    assert Undisturbed(s, pid, PUBLISH_STEPS - 2) == s;
    var s1 := Apply(s, Go(pid, true));
    assert s1 == s.(versions := s.versions + [Some(s.temps[pid])], temps := s.temps - {pid},
                    log := s.log + [Entry(pid, p.ticket, p.mut)],
                    procs := s.procs[pid := p.(stage := Published)]);
  }

  /** What it does from there to the release of the lock. */
  lemma FromMutated<R>(s: Sys<R>, pid: nat)
    requires s.versions != [] && pid in s.procs && s.procs[pid].Updater? && s.procs[pid].stage == HasNew
    requires s.exclusive == Some(pid) && pid !in s.temps
    ensures var p := s.procs[pid];
            Undisturbed(s, pid, TEMP_STEPS + PUBLISH_STEPS) ==
            s.(versions := s.versions + [Some(File(Whole(p.made), true))],
               log := s.log + [Entry(pid, p.ticket, p.mut)], exclusive := None, shared := s.shared - {pid},
               procs := s.procs[pid := p.(stage := Returned)])
  {
    var p := s.procs[pid];
    TempWritten(s, pid);
    var t := Undisturbed(s, pid, TEMP_STEPS);
    UndisturbedFurther(s, pid, TEMP_STEPS, t, PUBLISH_STEPS);
    FromTempWritten(t, pid);
    assert t.temps - {pid} == s.temps;
  }

  lemma UndisturbedStep<R>(s: Sys<R>, pid: nat, k: nat)
    requires s.versions != [] && k > 0
    ensures Undisturbed(s, pid, k) == Apply(Undisturbed(s, pid, k - 1), Go(pid, true))
  {
  }

  /** From the state after j steps, k more are j + k steps. */
  lemma {:induction false} UndisturbedFurther<R>(s: Sys<R>, pid: nat, j: nat, t: Sys<R>, k: nat)
    requires s.versions != [] && t == Undisturbed(s, pid, j)
    ensures t.versions != [] && Undisturbed(s, pid, j + k) == Undisturbed(t, pid, k)
    decreases k
  {
    if k > 0 {
      UndisturbedFurther(s, pid, j, t, k - 1);
      SameStep(s, t, pid, j + k, k);
    }
  }

  lemma SameStep<R>(s: Sys<R>, t: Sys<R>, pid: nat, m: nat, k: nat)
    requires s.versions != [] && t.versions != [] && m > 0 && k > 0
    requires Undisturbed(s, pid, m - 1) == Undisturbed(t, pid, k - 1)
    ensures Undisturbed(s, pid, m) == Undisturbed(t, pid, k)
  {
    UndisturbedStep(s, pid, m);
    UndisturbedStep(t, pid, k);
  }

  /** From any reachable state in which no lock is held, an update left alone goes through: it sees the
      latest record, publishes what its mutator makes of it, and releases the lock. */
  lemma UndisturbedUpdateGoesThrough<R>(empty: R, first: Option<R>, es: seq<Event<R>>,
                                        pid: nat, mut: Mutator<R>, d: R)
    requires var s := Exec(Initial(empty, first), es);
             && s.exclusive.None? && s.shared == {} && pid !in s.used
             && Replay(Base(s), s.log) == Some(d) && mut(d).Some?
    ensures var s := Exec(Initial(empty, first), es);
            var t := Undisturbed(Apply(s, StartUpdate(pid, mut)), pid, UPDATE_STEPS);
            && Visible(t) == Some(File(Whole(mut(d).value), true))
            && t.log == s.log + [Entry(pid, s.grants, mut)]
            && pid in t.procs && t.procs[pid].Updater? && t.procs[pid].stage == Returned
            && t.procs[pid].made == mut(d).value
            && t.exclusive.None? && t.shared == {} && t.temps == s.temps
  {
    var s := Exec(Initial(empty, first), es);
    InitialInv(empty, first);
    ExecInv(Initial(empty, first), es);
    ExecTemps(Initial(empty, first), es);
    UndisturbedFrom(s, pid, mut, d);
  }

  lemma UndisturbedFrom<R>(s: Sys<R>, pid: nat, mut: Mutator<R>, d: R)
    requires Inv(s) && s.exclusive.None? && s.shared == {} && pid !in s.used && pid !in s.temps
    requires Replay(Base(s), s.log) == Some(d) && mut(d).Some?
    ensures var t := Undisturbed(Apply(s, StartUpdate(pid, mut)), pid, UPDATE_STEPS);
            && Visible(t) == Some(File(Whole(mut(d).value), true))
            && t.log == s.log + [Entry(pid, s.grants, mut)]
            && pid in t.procs && t.procs[pid].Updater? && t.procs[pid].stage == Returned
            && t.procs[pid].made == mut(d).value
            && t.exclusive.None? && t.shared == {} && t.temps == s.temps
  {
    var start := Apply(s, StartUpdate(pid, mut));
    ToMutated(s, pid, mut, d);
    UndisturbedFurther(start, pid, READ_STEPS, Undisturbed(start, pid, READ_STEPS), TEMP_STEPS + PUBLISH_STEPS);
    MutatedGoesThrough(s.(used := s.used + {pid}, exclusive := Some(pid), grants := s.grants + 1,
                          procs := s.procs[pid := Updater(HasNew, mut, d, mut(d).value, s.grants)]), pid);
  }

  lemma MutatedGoesThrough<R>(s: Sys<R>, pid: nat)
    requires s.versions != [] && pid in s.procs && s.procs[pid].Updater? && s.procs[pid].stage == HasNew
    requires s.exclusive == Some(pid) && s.shared == {} && pid !in s.temps
    ensures var t := Undisturbed(s, pid, TEMP_STEPS + PUBLISH_STEPS);
            && Visible(t) == Some(File(Whole(s.procs[pid].made), true))
            && t.log == s.log + [Entry(pid, s.procs[pid].ticket, s.procs[pid].mut)]
            && pid in t.procs && t.procs[pid] == s.procs[pid].(stage := Returned)
            && t.exclusive.None? && t.shared == {} && t.temps == s.temps
  {
    FromMutated(s, pid);
  }

  // ----- The procedure itself, with the exceptions it handles -----

  datatype Failure = NoFailure | CreateFails | DumpFails | SyncFails | RenameFails

  /** The meta directory of one task: the record, and the temp files beside it. */
  class MetaDir<R> {
    const empty: R
    var record: Option<R>
    var temps: seq<File<R>>

    constructor (empty: R, record: Option<R>)
      ensures this.empty == empty && this.record == record && temps == []
    {
      this.empty, this.record, temps := empty, record, [];
    }

    /** Read, mutate, publish; on any exception the record and the directory are as before. */
    method UpdateTask(mut: Mutator<R>, failure: Failure) returns (r: Option<R>)
      modifies this
      ensures temps == old(temps)
      ensures var data := if old(record).None? then empty else old(record).value;
              if mut(data).Some? && failure == NoFailure
              then r == mut(data) && record == r
              else r == None && record == old(record)
    {
      var data := if record.None? then empty else record.value;
      var made := mut(data);
      if made.None? || failure == CreateFails {
        return None;
      }
      var before := |temps|;
      temps := temps + [File(Cut, false)];
      if failure != DumpFails {
        temps := temps[before := File(Whole(made.value), false)];
        if failure != SyncFails {
          temps := temps[before := File(Whole(made.value), true)];
          if failure != RenameFails {
            record := Some(made.value);
            temps := temps[..before];
            return made;
          }
        }
      }
      temps := temps[..before];
      r := None;
    }
  }
}
