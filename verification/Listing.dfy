/** The loop over all tasks, and what a dry reap of the whole store predicts. */
module Listing {
  import opened Common
  import opened TaskModel
  import opened Protocol
  import opened Uninterrupted
  import opened Controller
  import Journal

  /** Tasks reaped, and tasks that would be. */
  function Totals(os: seq<Outcome>): (nat, nat) {
    if os == [] then (0, 0)
    else
      var (reaped, would) := Totals(os[..|os| - 1]);
      match os[|os| - 1]
      case Listed(r, w, _) => (reaped + r, would + w)
      case _ => (reaped, would)
  }

  lemma TotalsOneMore(os: seq<Outcome>, o: Outcome)
    ensures Totals(os + [o]) ==
            if o.Listed? then (Totals(os).0 + o.reaped, Totals(os).1 + o.wouldReap) else Totals(os)
  {
    assert (os + [o])[..|os + [o]| - 1] == os;
  }

  /** A task processed on its own: v and o are what one uninterrupted run leaves and returns. */
  ghost predicate Processed(w: World, mode: Mode, answers: seq<Answer>, v: World, o: Outcome) {
    Alone(w, ListStart(mode), answers) == (v, Ended(o))
  }

  method ProcessOne(host: TaskHost, mode: Mode, answers: seq<Answer>) returns (o: Outcome)
    requires |answers| >= 17
    modifies host
    ensures Processed(old(host.W()), mode, answers, host.W(), o)
  {
    o := host.ReconcileOne(mode, answers);
  }

  /** list and reap over the tasks in order; the first task whose journal cannot be read stops the
      run with an exception, the tasks before it having been processed and those after it untouched. */
  method Run(hosts: seq<TaskHost>, mode: Mode, answers: seq<seq<Answer>>)
    returns (raised: bool, reaped: nat, wouldReap: nat, os: seq<Outcome>)
    requires |answers| == |hosts| && forall i :: 0 <= i < |answers| ==> |answers[i]| >= 17
    requires forall i, j :: 0 <= i < j < |hosts| ==> hosts[i] != hosts[j]
    modifies hosts
    ensures |os| <= |hosts| && (raised <==> os != [] && os[|os| - 1] == Raised)
    ensures !raised ==> |os| == |hosts| && (reaped, wouldReap) == Totals(os)
    ensures forall i :: 0 <= i < |os| ==> Processed(old(hosts[i].W()), mode, answers[i], hosts[i].W(), os[i])
    ensures forall i :: |os| <= i < |hosts| ==> hosts[i].W() == old(hosts[i].W())
  {
    raised, reaped, wouldReap, os := false, 0, 0, [];
    var i := 0;
    while i < |hosts|
      invariant 0 <= i <= |hosts| && |os| == i
      invariant !raised && Raised !in os
      invariant (reaped, wouldReap) == Totals(os)
      invariant forall k :: 0 <= k < i ==> Processed(old(hosts[k].W()), mode, answers[k], hosts[k].W(), os[k])
      invariant forall k :: i <= k < |hosts| ==> hosts[k].W() == old(hosts[k].W())
    {
      var o := ProcessOne(hosts[i], mode, answers[i]);
      TotalsOneMore(os, o);
      os := os + [o];
      if o == Raised {
        raised := true;
        return;
      }
      if o.Listed? {
        reaped, wouldReap := reaped + o.reaped, wouldReap + o.wouldReap;
      }
      i := i + 1;
    }
  }

  /** A task whose journal can be read. */
  ghost predicate Readable(w: World) {
    Journal.Tail(w.classify, Some(w.journal), w.rec.eventsOffset).Some?
  }

  ghost predicate HealthyReap(w: World, answers: seq<Answer>) {
    |answers| >= 16 && Healthy(w, ListStart(Mode(true, false)), answers, true)
  }

  /** Main result: over the whole store, a dry reap leaves every record, error log and container as it
      was, reaps nothing, and announces exactly the number of tasks that a real reap of the same
      tasks, with Docker and git healthy, reaps. */
  lemma DryRunPredictsRun(
    ws: seq<World>, dry: seq<seq<Answer>>, live: seq<seq<Answer>>,
    afterDry: seq<World>, afterLive: seq<World>, dryOs: seq<Outcome>, liveOs: seq<Outcome>)
    requires |ws| == |dry| == |live| == |afterDry| == |afterLive| == |dryOs| == |liveOs|
    requires forall i :: 0 <= i < |ws| ==>
               Readable(ws[i]) && |dry[i]| >= 6 && dry[i][0].ok && HealthyReap(ws[i], live[i])
    requires forall i :: 0 <= i < |ws| ==> Processed(ws[i], Mode(true, true), dry[i], afterDry[i], dryOs[i])
    requires forall i :: 0 <= i < |ws| ==> Processed(ws[i], Mode(true, false), live[i], afterLive[i], liveOs[i])
    ensures afterDry == ws
    ensures Totals(dryOs) == (0, Totals(liveOs).0)
    ensures Totals(liveOs).1 == 0
  {
    forall i | 0 <= i < |ws| ensures afterDry[i] == ws[i] && Predicts(dryOs[i], liveOs[i]) {
      OneTaskPredicts(ws[i], dry[i], live[i], afterDry[i], afterLive[i], dryOs[i], liveOs[i]);
    }
    SumsAgree(dryOs, liveOs);
  }

  predicate Predicts(d: Outcome, l: Outcome) {
    d.Listed? && l.Listed? && d.reaped == 0 && l.wouldReap == 0 && d.wouldReap == l.reaped
  }

  lemma {:induction false} SumsAgree(dryOs: seq<Outcome>, liveOs: seq<Outcome>)
    requires |dryOs| == |liveOs| && forall i :: 0 <= i < |dryOs| ==> Predicts(dryOs[i], liveOs[i])
    ensures Totals(dryOs) == (0, Totals(liveOs).0) && Totals(liveOs).1 == 0
  {
    if dryOs != [] {
      var n := |dryOs| - 1;
      SumsAgree(dryOs[..n], liveOs[..n]);
      assert Predicts(dryOs[n], liveOs[n]);
    }
  }

  lemma OneTaskPredicts(w: World, dry: seq<Answer>, live: seq<Answer>, v: World, u: World, d: Outcome, l: Outcome)
    requires Readable(w) && |dry| >= 6 && dry[0].ok && HealthyReap(w, live)
    requires Processed(w, Mode(true, true), dry, v, d) && Processed(w, Mode(true, false), live, u, l)
    ensures v == w && Predicts(d, l)
  {
    DryReapPredicts(w, dry, live);
  }

  /** Whatever the journals hold and however it is answered, a dry run over any tasks changes nothing. */
  lemma DryRunChangesNothing(ws: seq<World>, reap: bool, answers: seq<seq<Answer>>,
                             after: seq<World>, os: seq<Outcome>)
    requires |ws| == |answers| == |after| == |os|
    requires forall i :: 0 <= i < |ws| ==> Processed(ws[i], Mode(reap, true), answers[i], after[i], os[i])
    ensures after == ws
  {
    forall i | 0 <= i < |ws| ensures after[i] == ws[i] {
      DryReapChangesNothing(ws[i], reap, answers[i]);
    }
  }
}
