/** The boundaries of the protocol, each by a run that crosses it: a finish and a recover that leave a
    finished task with a running container (and the repair), a signal that is lost, an offset that moves
    back, and the three ways in which overlapping reaps get a task stuck. */
module Races {
  import opened Common
  import opened Reconcile
  import opened TaskModel
  import opened Protocol
  import opened Safety
  import opened Uninterrupted
  import opened Convergence
  import opened Overlap
  import Journal

  const FINE: Answer := Answer(true, true, "t")

  lemma OneMore(s: Sys, es: seq<Event>, e: Event)
    ensures Exec(s, es + [e]) == Apply(Exec(s, es), e)
  {
    assert (es + [e])[..|es + [e]| - 1] == es;
  }

  lemma Spawns(s: Sys, es: seq<Event>, t: Sys, pid: nat, c: Command) returns (fs: seq<Event>)
    requires Exec(s, es) == t
    ensures Exec(s, fs) == Sys(t.w, t.procs[pid := Start(c)])
  {
    fs := es + [Spawn(pid, c)];
    OneMore(s, es, Spawn(pid, c));
  }

  function Only(q: Proc): map<nat, Proc> {
    map[1 := q]
  }

  function Both(p: Proc, q: Proc): map<nat, Proc> {
    map[0 := p, 1 := q]
  }

  /** Process 1, on its own, takes one step with a good answer. */
  lemma OnlyGoes(s: Sys, es: seq<Event>, w: World, p: Proc, v: World, q: Proc) returns (fs: seq<Event>)
    requires Exec(s, es) == Sys(w, Only(p)) && Step(w, p, FINE) == (v, q)
    ensures Exec(s, fs) == Sys(v, Only(q))
  {
    fs := es + [Go(1, FINE)];
    OneMore(s, es, Go(1, FINE));
    assert Only(p)[1 := q] == Only(q);
  }

  /** Process 0 takes one step with a good answer. */
  lemma FirstGoes(s: Sys, es: seq<Event>, w: World, p: Proc, f: Proc, v: World, q: Proc) returns (fs: seq<Event>)
    requires Exec(s, es) == Sys(w, Both(p, f)) && Step(w, p, FINE) == (v, q)
    ensures Exec(s, fs) == Sys(v, Both(q, f))
  {
    fs := es + [Go(0, FINE)];
    OneMore(s, es, Go(0, FINE));
    assert Both(p, f)[0 := q] == Both(q, f);
  }

  /** Process 1 takes one step with a good answer. */
  lemma SecondGoes(s: Sys, es: seq<Event>, w: World, p: Proc, f: Proc, v: World, q: Proc) returns (fs: seq<Event>)
    requires Exec(s, es) == Sys(w, Both(p, f)) && Step(w, f, FINE) == (v, q)
    ensures Exec(s, fs) == Sys(v, Both(p, q))
  {
    fs := es + [Go(1, FINE)];
    OneMore(s, es, Go(1, FINE));
    assert Both(p, f)[1 := q] == Both(p, q);
  }

  /** n good answers. */
  function Fine(n: nat): seq<Answer> {
    seq(n, _ => FINE)
  }

  lemma FineFront(n: nat)
    ensures Fine(n + 1)[..n] == Fine(n) && Fine(n + 1)[n] == FINE
  {
  }

  lemma FineStep(w: World, p: Proc, n: nat)
    ensures Alone(w, p, Fine(n + 1)) == Step(Alone(w, p, Fine(n)).0, Alone(w, p, Fine(n)).1, FINE)
  {
    FineFront(n);
  }

  lemma {:induction false} OnlyRuns(s: Sys, es: seq<Event>, w: World, p: Proc, n: nat) returns (fs: seq<Event>)
    requires Exec(s, es) == Sys(w, Only(p))
    ensures Exec(s, fs) == Sys(Alone(w, p, Fine(n)).0, Only(Alone(w, p, Fine(n)).1))
  {
    if n == 0 {
      fs := es;
    } else {
      var (v, q) := Alone(w, p, Fine(n - 1));
      fs := OnlyRuns(s, es, w, p, n - 1);
      FineStep(w, p, n - 1);
      var (v', q') := Step(v, q, FINE);
      fs := OnlyGoes(s, fs, v, q, v', q');
    }
  }

  lemma {:induction false} FirstRuns(s: Sys, es: seq<Event>, w: World, p: Proc, f: Proc, n: nat)
    returns (fs: seq<Event>)
    requires Exec(s, es) == Sys(w, Both(p, f))
    ensures Exec(s, fs) == Sys(Alone(w, p, Fine(n)).0, Both(Alone(w, p, Fine(n)).1, f))
  {
    if n == 0 {
      fs := es;
    } else {
      var (v, q) := Alone(w, p, Fine(n - 1));
      fs := FirstRuns(s, es, w, p, f, n - 1);
      FineStep(w, p, n - 1);
      var (v', q') := Step(v, q, FINE);
      fs := FirstGoes(s, fs, v, q, f, v', q');
    }
  }

  lemma {:induction false} SecondRuns(s: Sys, es: seq<Event>, w: World, p: Proc, f: Proc, n: nat)
    returns (fs: seq<Event>)
    requires Exec(s, es) == Sys(w, Both(p, f))
    ensures Exec(s, fs) == Sys(Alone(w, f, Fine(n)).0, Both(p, Alone(w, f, Fine(n)).1))
  {
    if n == 0 {
      fs := es;
    } else {
      var (v, q) := Alone(w, f, Fine(n - 1));
      fs := SecondRuns(s, es, w, p, f, n - 1);
      FineStep(w, f, n - 1);
      var (v', q') := Step(v, q, FINE);
      fs := SecondGoes(s, fs, v, p, q, v', q');
    }
  }

  function Td(): Teardown {
    Teardown(Completed, None, true, "", FinishReturns)
  }

  /** finish gets as far as having seen that there is no container. */
  lemma FinishChecks(w: World) returns (es: seq<Event>)
    requires w.rec.status == Interrupted && w.ctr.None?
    ensures Exec(Sys(w, map[]), es) == Sys(WithAct(w, LookedUp(false)), Only(Tearing(Td(), TdCapture(w.rec))))
  {
    var s := Sys(w, map[]);
    es := Spawns(s, [], s, 1, Finish(false, None));
    assert s.procs[1 := FinishStart(false, None)] == Only(FinishStart(false, None));
    es := OnlyGoes(s, es, w, FinishStart(false, None), w, Tearing(Td(), TdRead));
    es := OnlyGoes(s, es, w, Tearing(Td(), TdRead), w, Tearing(Td(), TdGet(w.rec)));
    es := OnlyGoes(s, es, w, Tearing(Td(), TdGet(w.rec)), w, Tearing(Td(), TdVerify(w.rec)));
    es := OnlyGoes(s, es, w, Tearing(Td(), TdVerify(w.rec)),
                   WithAct(w, LookedUp(false)), Tearing(Td(), TdCapture(w.rec)));
  }

  /** Then recover runs through: up to the start of its container, */
  lemma RecoverPrepares(s: Sys, es0: seq<Event>, w: World, f: Proc) returns (es: seq<Event>)
    requires Exec(s, es0) == Sys(w, Only(f)) && w.rec.status == Interrupted && w.ctr.None?
    ensures var r := Recovering(w.rec, None, GitState(w.rec, FINE.text));
            Exec(s, es) == Sys(w.(logSize := w.logSize + |FINE.text|), Both(RecRun(r), f))
  {
    var r := Recovering(w.rec, None, GitState(w.rec, FINE.text));
    var w1 := w.(logSize := w.logSize + |FINE.text|);
    es := Spawns(s, es0, Sys(w, Only(f)), 0, Recover);
    assert Only(f)[0 := RecStart] == Both(RecStart, f);
    es := FirstGoes(s, es, w, RecStart, f, w, RecGet(w.rec));
    es := FirstGoes(s, es, w, RecGet(w.rec), f, w, RecBanner(r));
    es := FirstGoes(s, es, w, RecBanner(r), f, w1, RecRun(r));
  }

  /** and on to its commit, which finds the record interrupted. */
  lemma RecoverCommits(s: Sys, es0: seq<Event>, w: World, r: Recovering, f: Proc)
    returns (es: seq<Event>, v: World)
    requires Exec(s, es0) == Sys(w, Both(RecRun(r), f)) && w.rec.status == Interrupted && w.ctr.None?
    ensures Exec(s, es) == Sys(v, Both(Ended(Recovered), f))
    ensures v.ctr == Some(Ctr(w.nextId, CtrRunning, None))
  {
    var w2, id := NewCtr(w, CtrRunning), w.nextId;
    es := FirstGoes(s, es0, w, RecRun(r), f, w2, RecReload(r, id));
    es := FirstGoes(s, es, w2, RecReload(r, id), f, w2, RecCommit(r, id, FINE.text));
    v := w2.(rec := RecoverMutator(w2.rec, RecoveryEntry(w2, r, FINE.text, FINE.text), FINE.text).value);
    es := FirstGoes(s, es, w2, RecCommit(r, id, FINE.text), f, v, Ended(Recovered));
  }

  /** From any interrupted generic task without a container: both end normally, the task is completed,
      and its new container is running. */
  lemma FinishRacingRecoverLeavesContainer(w: World) returns (es: seq<Event>)
    requires w.rec.status == Interrupted && w.ctr.None? && !w.rec.project
    ensures var t := Exec(Sys(w, map[]), es);
            && t.procs == Both(Ended(Recovered), Ended(FinishReturned))
            && t.w.rec.status == Completed && t.w.ctr == Some(Ctr(w.nextId, CtrRunning, None))
  {
    var s, f, done := Sys(w, map[]), Tearing(Td(), TdCapture(w.rec)), Ended(Recovered);
    var w1 := WithAct(w, LookedUp(false));
    var v;
    es := FinishChecks(w);
    es := RecoverPrepares(s, es, w1, f);
    var r := Recovering(w1.rec, None, GitState(w1.rec, FINE.text));
    es, v := RecoverCommits(s, es, w1.(logSize := w1.logSize + |FINE.text|), r, f);
    var v1 := WithAct(v, Captured);
    es := SecondGoes(s, es, v, done, f, v1, Tearing(Td(), TdTerminal));
    var v2 := WithAct(v1.(rec := TerminalMutator(v1.rec, Completed, "", FINE.text)), WroteTerminal);
    es := SecondGoes(s, es, v1, done, Tearing(Td(), TdTerminal), v2, Ended(FinishReturned));
  }

  /** The repair: the next uninterrupted finish with Docker healthy removes that container and keeps the
      status. */
  lemma NextFinishRepairs(w: World, answers: seq<Answer>)
    requires Terminal(w.rec.status) && w.ctr.Some?
    requires Healthy(w, FinishStart(false, None), answers, true) && |answers| >= 12
    ensures var (v, q) := Alone(w, FinishStart(false, None), answers);
            q == Ended(FinishReturned) && v.ctr.None? && v.rec.status == w.rec.status
  {
    FinishRepairs(w, false, None, answers, true);
  }

  // ----- A signal that is lost -----

  const LIST: Mode := Mode(false, false)

  /** From every fresh state of an interrupted task that is not auto-finished, with a journal that ends in
      done or fail: one plain list consumes the event, and the task stays interrupted. */
  lemma SignalIsLost(w: World, tail: Journal.Tailed) returns (es: seq<Event>, e: Event)
    requires Fresh(w) && !w.rec.autoFinish && w.rec.status == Interrupted
    requires Journal.Tail(w.classify, Some(w.journal), 0) == Some(tail) && IsTerminalKind(LatestKind(tail.valid))
    ensures var s := Exec(Sys(w, map[]), es);
            Consumes(s.w, Apply(s, e).w) && Apply(s, e).w.rec.status == Interrupted
  {
    var s, plan := Sys(w, map[]), PlanNow(w, LIST, tail);
    es := Spawns(s, [], s, 1, List(LIST));
    assert s.procs[1 := ListStart(LIST)] == Only(ListStart(LIST));
    ListBeforeWrite(w, LIST, Fine(5));
    assert Fine(5)[..5] == Fine(5);
    es := OnlyRuns(s, es, w, ListStart(LIST), 5);
    e := Go(1, FINE);
    WriteStep(AfterDiag(w, plan), plan, FINE);
    WriteLosesSignal(AfterDiag(w, plan), plan);
  }

  /** The write of that list. */
  lemma WriteLosesSignal(w: World, plan: Plan)
    requires WorldOk(w) && !w.rec.autoFinish && w.rec.status == Interrupted && w.rec.eventsOffset == 0
    requires plan == PlanNow(w, LIST, plan.tail) && IsTerminalKind(plan.Kind())
    requires Journal.Tail(w.classify, Some(w.journal), 0) == Some(plan.tail)
    ensures var v := StepListWrite(w, plan, FINE).0; Consumes(w, v) && v.rec.status == Interrupted
  {
    TailAtEnd(w.classify, w.journal, 0);
    TailTakenNow(w, 0);
    ListMutatorWrites(w.rec, plan, FINE.text);
  }

  /** A fresh task with a given status whose journal holds the given events, and no container. */
  function FreshTask(rt: Journal.Runtime, status: Status, autoFinish: bool, events: seq<Journal.Event>): (w: World)
    ensures Fresh(w)
  {
    World(Rec(status, 0, 0, 0, [], "", "", "", autoFinish, false, Ask, false, false, "", ""),
          None, 0, Journal.Written(events), 0, false, [], [], "", Journal.LineCheck(rt))
  }

  lemma FreshTaskReads(rt: Journal.Runtime, status: Status, autoFinish: bool, events: seq<Journal.Event>)
    requires forall e :: e in events ==> Journal.WellFormed(rt, e)
    ensures var w := FreshTask(rt, status, autoFinish, events);
            Journal.Tail(w.classify, Some(w.journal), 0)
            == Some(Journal.Tailed(|Journal.Written(events)|, events, []))
  {
    assert Journal.Written(events) + [] == Journal.Written(events);
    Journal.TailUndoesAppends(rt, events, [], Journal.Written(events));
  }

  /** And there is such a state: any done event the signal command can write gives one. */
  lemma ALostSignal(rt: Journal.Runtime, done: Journal.Event) returns (w: World, es: seq<Event>, e: Event)
    requires Journal.WellFormed(rt, done) && done.kind == Journal.Done
    ensures Fresh(w) && w.journal == Journal.Written([done])
    ensures var s := Exec(Sys(w, map[]), es);
            Consumes(s.w, Apply(s, e).w) && !Terminal(Apply(s, e).w.rec.status)
  {
    w := FreshTask(rt, Interrupted, false, [done]);
    FreshTaskReads(rt, Interrupted, false, [done]);
    es, e := SignalIsLost(w, Journal.Tailed(|w.journal|, [done], []));
  }

  // ----- An offset that moves back -----

  function Closer(tail: Journal.Tailed): Teardown {
    Teardown(if LatestKind(tail.valid) == Some(Journal.Done) then Completed else Failed, None, false,
             LatestFailReason(tail.valid), ReapAdvances(tail.offset))
  }

  /** Six good steps of a reap that finds a closing event. */
  lemma ReapReachesTeardown(w: World, tail: Journal.Tailed) returns (v: World)
    requires w.rec.autoFinish && !Terminal(w.rec.status)
    requires Journal.Tail(w.classify, Some(w.journal), w.rec.eventsOffset) == Some(tail)
    requires IsTerminalKind(LatestKind(tail.valid))
    ensures Alone(w, ListStart(REAP), Fine(6)) == (v, Tearing(Closer(tail), TdRead))
    ensures v.ctr == w.ctr && v.journal == w.journal && v.classify == w.classify
    ensures v.rec.status == w.rec.status && v.rec.eventsOffset == w.rec.eventsOffset
    ensures v.rec.autoFinish == w.rec.autoFinish && v.rec.project == w.rec.project
    ensures v.rec.failureReason == w.rec.failureReason
  {
    var plan := PlanNow(w, REAP, tail);
    ListAlone(w, REAP, Fine(6));
    assert Fine(6)[..6] == Fine(6);
    v := AfterDiag(w, plan).(rec := ListMutator(w.rec, plan, FINE.text));
  }

  /** Five good steps of a teardown of a generic task without a container. */
  lemma QuickTeardown(w: World, td: Teardown) returns (v: World)
    requires w.ctr.None? && !w.rec.project
    ensures Alone(w, Tearing(td, TdRead), Fine(5)) == (v, Returns(td))
    ensures v.ctr.None? && v.rec == TerminalMutator(w.rec, td.target, td.reason, FINE.text)
    ensures v.journal == w.journal && v.classify == w.classify
  {
    var p := Tearing(td, TdRead);
    var w3 := WithAct(w, LookedUp(false));
    FineStep(w, p, 0);
    assert Fine(0) == [];
    LookSteps(w, td, FINE);
    FineStep(w, p, 1);
    FineStep(w, p, 2);
    VerifyStep(w, td, w.rec, FINE);
    FineStep(w, p, 3);
    CaptureStep(w3, td, w.rec, FINE);
    FineStep(w, p, 4);
    var w4 := WithAct(w3, Captured);
    TerminalStep(w4, td, FINE);
    v := WithAct(w4.(rec := TerminalMutator(w4.rec, td.target, td.reason, FINE.text)), WroteTerminal);
  }

  lemma AdvanceAlone(w: World, off: nat)
    ensures Alone(w, ReapAdvance(off), Fine(1)) == (w.(rec := AdvanceMutator(w.rec, off)), Ended(Listed(1, 0, false)))
  {
    FineStep(w, ReapAdvance(off), 0);
    assert Fine(0) == [];
  }

  /** Two reaps of one generic task without a container, a second closing event appended between their
      tails: the slower one carries the offset back over that event. */
  lemma OffsetMovesBack(w: World, more: seq<byte>, one: Journal.Tailed, two: Journal.Tailed)
    returns (es: seq<Event>, e: Event)
    requires Fresh(w) && w.rec.autoFinish && !Terminal(w.rec.status) && !w.rec.project && w.ctr.None?
    requires Journal.Tail(w.classify, Some(w.journal), 0) == Some(one) && IsTerminalKind(LatestKind(one.valid))
    requires Journal.Tail(w.classify, Some(w.journal + more), 0) == Some(two) && IsTerminalKind(LatestKind(two.valid))
    requires one.offset < two.offset
    ensures var s := Exec(Sys(w, map[]), es);
            s.w.rec.eventsOffset == two.offset && Apply(s, e).w.rec.eventsOffset == one.offset
  {
    var s := Sys(w, map[]);
    es := Spawns(s, [], s, 1, List(REAP));
    assert s.procs[1 := ListStart(REAP)] == Only(ListStart(REAP));
    var w1 := ReapReachesTeardown(w, one);
    es := OnlyRuns(s, es, w, ListStart(REAP), 6);
    var w2 := w1.(journal := w1.journal + more);
    OneMore(s, es, Env(JournalGrows(more)));
    es := es + [Env(JournalGrows(more))];
    es := TwoReaps(s, es, w2, one, two);
    e := Go(1, FINE);
  }

  lemma TwoReaps(s: Sys, es0: seq<Event>, w: World, one: Journal.Tailed, two: Journal.Tailed)
    returns (es: seq<Event>)
    requires Exec(s, es0) == Sys(w, Only(Tearing(Closer(one), TdRead)))
    requires w.rec.autoFinish && !Terminal(w.rec.status) && !w.rec.project && w.ctr.None?
    requires Journal.Tail(w.classify, Some(w.journal), w.rec.eventsOffset) == Some(two)
    requires IsTerminalKind(LatestKind(two.valid))
    ensures var t := Exec(s, es);
            t.w.rec.eventsOffset == two.offset && 1 in t.procs && t.procs[1] == ReapAdvance(one.offset)
  {
    var a, b := Tearing(Closer(one), TdRead), Tearing(Closer(two), TdRead);
    es := Spawns(s, es0, Sys(w, Only(a)), 0, List(REAP));
    assert Only(a)[0 := ListStart(REAP)] == Both(ListStart(REAP), a);
    var w1 := ReapReachesTeardown(w, two);
    es := FirstRuns(s, es, w, ListStart(REAP), a, 6);
    var w2 := QuickTeardown(w1, Closer(one));
    es := SecondRuns(s, es, w1, b, a, 5);
    var w3 := QuickTeardown(w2, Closer(two));
    es := FirstRuns(s, es, w2, b, ReapAdvance(one.offset), 5);
    AdvanceAlone(w3, two.offset);
    es := FirstRuns(s, es, w3, ReapAdvance(two.offset), ReapAdvance(one.offset), 1);
  }

  /** And there is such a run: two done events give one. */
  lemma AnOffsetMovesBack(rt: Journal.Runtime, done: Journal.Event) returns (w: World, es: seq<Event>, e: Event)
    requires Journal.WellFormed(rt, done) && done.kind == Journal.Done
    ensures Fresh(w)
    ensures var s := Exec(Sys(w, map[]), es); Apply(s, e).w.rec.eventsOffset < s.w.rec.eventsOffset
  {
    w := FreshTask(rt, Running, true, [done]);
    var line := Journal.Line(done);
    FreshTaskReads(rt, Running, true, [done]);
    FreshTaskReads(rt, Running, true, [done, done]);
    TwoLines(done);
    es, e := OffsetMovesBack(w, line, Journal.Tailed(|w.journal|, [done], []),
                             Journal.Tailed(|w.journal + line|, [done, done], []));
  }

  lemma TwoLines(e: Journal.Event)
    ensures Journal.Written([e, e]) == Journal.Written([e]) + Journal.Line(e) && Journal.Line(e) != []
  {
    assert [e, e][1..] == [e] && [e][1..] == [];
    assert Journal.Written([e]) == Journal.Line(e) + [];
    assert Journal.Written([e, e]) == Journal.Line(e) + Journal.Written([e]);
  }

  // ----- Ways to get stuck -----

  const REFUSED: Answer := Answer(false, false, "e")

  /** Process 1's teardown of a task without a container fails: its second lookup is not answered. */
  lemma SecondFails(s: Sys, es: seq<Event>, w: World, p: Proc, td: Teardown) returns (fs: seq<Event>, v: World)
    requires Exec(s, es) == Sys(w, Both(p, Tearing(td, TdRead))) && w.ctr.None?
    ensures Exec(s, fs) == Sys(v, Both(p, Ended(Exits(td))))
    ensures v == WithAct(WithAct(w, LookupFailed).(rec := FailedMutator(w.rec, REFUSED.text, FINE.text)), WroteFailed)
  {
    LookSteps(w, td, FINE);
    fs := SecondGoes(s, es, w, p, Tearing(td, TdRead), w, Tearing(td, TdGet(w.rec)));
    fs := SecondGoes(s, fs, w, p, Tearing(td, TdGet(w.rec)), w, Tearing(td, TdVerify(w.rec)));
    var w1 := WithAct(w, LookupFailed);
    fs := SecondIsRefused(s, fs, w, p, td, w.rec);
    v := WithAct(w1.(rec := FailedMutator(w.rec, REFUSED.text, FINE.text)), WroteFailed);
    fs := SecondGoes(s, fs, w1, p, Tearing(td, TdMark(REFUSED.text)), v, Ended(Exits(td)));
  }

  lemma SecondIsRefused(s: Sys, es: seq<Event>, w: World, p: Proc, td: Teardown, data: Rec) returns (fs: seq<Event>)
    requires Exec(s, es) == Sys(w, Both(p, Tearing(td, TdVerify(data))))
    ensures Exec(s, fs) == Sys(WithAct(w, LookupFailed), Both(p, Tearing(td, TdMark(REFUSED.text))))
  {
    fs := es + [Go(1, REFUSED)];
    OneMore(s, es, Go(1, REFUSED));
    VerifyStep(w, td, data, REFUSED);
    assert Both(p, Tearing(td, TdVerify(data)))[1 := Tearing(td, TdMark(REFUSED.text))]
        == Both(p, Tearing(td, TdMark(REFUSED.text)));
  }

  /** A generic task without a container, not terminal, with a closing event unread. */
  ghost predicate Reapable(w: World, tail: Journal.Tailed) {
    && w.rec.autoFinish && !Terminal(w.rec.status) && !w.rec.project && w.ctr.None?
    && Unread(w, tail).Pending()
  }

  /** Two reaps, both about to tear down. */
  lemma BothTear(w: World, tail: Journal.Tailed) returns (es: seq<Event>, v: World)
    requires Reapable(w, tail)
    ensures Exec(Sys(w, map[]), es) == Sys(v, Both(Tearing(Closer(tail), TdRead), Tearing(Closer(tail), TdRead)))
    ensures v.ctr.None? && !v.rec.project && v.journal == w.journal && v.classify == w.classify
    ensures v.rec.autoFinish && v.rec.eventsOffset == w.rec.eventsOffset
  {
    var s, tearing := Sys(w, map[]), Tearing(Closer(tail), TdRead);
    es := Spawns(s, [], s, 1, List(REAP));
    assert s.procs[1 := ListStart(REAP)] == Only(ListStart(REAP));
    var w1 := ReapReachesTeardown(w, tail);
    es := OnlyRuns(s, es, w, ListStart(REAP), 6);
    es := Spawns(s, es, Sys(w1, Only(tearing)), 0, List(REAP));
    assert Only(tearing)[0 := ListStart(REAP)] == Both(ListStart(REAP), tearing);
    v := ReapReachesTeardown(w1, tail);
    es := FirstRuns(s, es, w1, ListStart(REAP), tearing, 6);
  }

  /** The first of them closes the task. */
  lemma FirstCloses(w: World, tail: Journal.Tailed) returns (es: seq<Event>, v: World)
    requires Reapable(w, tail)
    ensures Exec(Sys(w, map[]), es) == Sys(v, Both(ReapAdvance(tail.offset), Tearing(Closer(tail), TdRead)))
    ensures v.ctr.None? && v.journal == w.journal && v.classify == w.classify
    ensures v.rec.autoFinish && v.rec.eventsOffset == w.rec.eventsOffset
    ensures Unread(w, tail).ClosedBy(v.rec)
  {
    var s, tearing := Sys(w, map[]), Tearing(Closer(tail), TdRead);
    var w1;
    es, w1 := BothTear(w, tail);
    v := QuickTeardown(w1, Closer(tail));
    es := FirstRuns(s, es, w1, tearing, tearing, 5);
    ClosingWrite(Unread(w, tail), w1.rec, FINE.text);
  }

  /** One way: the fast reap closes the task and advances, and then the slow one's teardown fails. Both
      have ended. */
  lemma StuckByLateFailure(w: World, tail: Journal.Tailed) returns (es: seq<Event>)
    requires Reapable(w, tail)
    requires FinishReason(REFUSED.text) != LatestFailReason(tail.valid)
    ensures var t := Exec(Sys(w, map[]), es);
            && Stuck(Unread(w, tail), t.w)
            && t.procs == Both(Ended(Listed(1, 0, false)), Ended(Listed(0, 0, false)))
  {
    var s, td := Sys(w, map[]), Closer(tail);
    var w1;
    es, w1 := FirstCloses(w, tail);
    AdvanceAlone(w1, tail.offset);
    es := FirstRuns(s, es, w1, ReapAdvance(tail.offset), Tearing(td, TdRead), 1);
    var w2 := w1.(rec := AdvanceMutator(w1.rec, tail.offset));
    var v;
    es, v := SecondFails(s, es, w2, Ended(Listed(1, 0, false)), td);
    FailedIsStuck(Unread(w, tail), w2.rec, v);
  }

  /** Another: the slow one fails between the fast one's closing write and its advance. */
  lemma StuckByAdvance(w: World, tail: Journal.Tailed) returns (es: seq<Event>)
    requires Reapable(w, tail)
    requires FinishReason(REFUSED.text) != LatestFailReason(tail.valid)
    ensures var t := Exec(Sys(w, map[]), es);
            && Stuck(Unread(w, tail), t.w)
            && t.procs == Both(Ended(Listed(1, 0, false)), Ended(Listed(0, 0, false)))
  {
    var s, td, failed := Sys(w, map[]), Closer(tail), Ended(Listed(0, 0, false));
    var w1, w2;
    es, w1 := FirstCloses(w, tail);
    es, w2 := SecondFails(s, es, w1, ReapAdvance(tail.offset), td);
    AdvanceAlone(w2, tail.offset);
    es := FirstRuns(s, es, w2, ReapAdvance(tail.offset), failed, 1);
    FailedIsStuck(Unread(w, tail), w1.rec, w2.(rec := AdvanceMutator(w2.rec, tail.offset)));
  }

  lemma FailedIsStuck(b: Batch, d: Rec, v: World)
    requires v.journal == b.journal && v.classify == b.classify && v.ctr.None? && d.autoFinish
    requires v.rec == FailedMutator(d, REFUSED.text, FINE.text).(eventsOffset := b.tail.offset)
    requires FinishReason(REFUSED.text) != LatestFailReason(b.tail.valid)
    ensures Stuck(b, v)
  {
    FailedWriteAllowsRetry(d, REFUSED.text, FINE.text);
  }

  /** The third: the fast one is killed before its advance; a plain list reads the task, closed as failed;
      the slow one fails, which leaves status and offset as the list read them; and the list's
      compare-and-set lets it move the offset. */
  lemma StuckByList(w: World, tail: Journal.Tailed) returns (es: seq<Event>)
    requires Reapable(w, tail) && LatestKind(tail.valid) == Some(Journal.Fail)
    requires !IsFinishReason(LatestFailReason(tail.valid))
    ensures var t := Exec(Sys(w, map[]), es);
            && Stuck(Unread(w, tail), t.w)
            && t.procs == Both(Ended(Listed(0, 0, false)), Ended(Listed(0, 0, false)))
  {
    var s, td, failed := Sys(w, map[]), Closer(tail), Ended(Listed(0, 0, false));
    var w1, w3;
    es, w1 := FirstCloses(w, tail);
    es := Spawns(s, es, Sys(w1, Both(ReapAdvance(tail.offset), Tearing(td, TdRead))), 0, List(LIST));
    assert Both(ReapAdvance(tail.offset), Tearing(td, TdRead))[0 := ListStart(LIST)]
        == Both(ListStart(LIST), Tearing(td, TdRead));
    var plan := PlanNow(w1, LIST, tail);
    ListBeforeWrite(w1, LIST, Fine(5));
    assert Fine(5)[..5] == Fine(5);
    es := FirstRuns(s, es, w1, ListStart(LIST), Tearing(td, TdRead), 5);
    var w2 := AfterDiag(w1, plan);
    es, w3 := SecondFails(s, es, w2, ListWrite(plan), td);
    WriteStep(w3, plan, FINE);
    ListIsFooled(Unread(w, tail), w1.rec, w3, plan);
    es := FirstGoes(s, es, w3, ListWrite(plan), failed, StepListWrite(w3, plan, FINE).0, failed);
  }

  /** The list's write over the failed record. */
  lemma ListIsFooled(b: Batch, d: Rec, w: World, plan: Plan)
    requires b.Closes() && !b.Done() && !IsFinishReason(LatestFailReason(b.tail.valid))
    requires b.ClosedBy(d) && d.autoFinish && d.eventsOffset == b.from
    requires plan.rec0 == d && plan.mode == LIST && plan.tail == b.tail
    requires w.journal == b.journal && w.classify == b.classify && w.ctr.None?
    requires w.rec == FailedMutator(d, REFUSED.text, FINE.text)
    ensures var (v, q) := StepListWrite(w, plan, FINE); Stuck(b, v) && q == Ended(Listed(0, 0, false))
  {
    TransitionsAreListEdges(plan.rec0.status, plan.look.state, plan.look.exit, plan.Kind());
    assert !plan.TerminalAutoPending() && !Stale(w.rec, plan);
    FailedWriteAllowsRetry(d, REFUSED.text, FINE.text);
  }

  /** And there is such a run: any done event gives one, from a fresh task. */
  lemma AStuckTask(rt: Journal.Runtime, done: Journal.Event) returns (w: World, es: seq<Event>)
    requires Journal.WellFormed(rt, done) && done.kind == Journal.Done
    ensures Fresh(w) && w.journal == Journal.Written([done]) && w.rec.autoFinish
    ensures Stuck(Unread(w, Journal.Tailed(|w.journal|, [done], [])), Exec(Sys(w, map[]), es).w)
  {
    w := FreshTask(rt, Running, true, [done]);
    FreshTaskReads(rt, Running, true, [done]);
    es := StuckByLateFailure(w, Journal.Tailed(|w.journal|, [done], []));
  }
}
