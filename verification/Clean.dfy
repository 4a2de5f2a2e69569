/** Reclaiming disk: old finished tasks, then containers whose task folder is gone. */
module Clean {
  import opened Common
  import opened Reconcile

  /** The parts of a task record that clean reads; repo is empty unless a project task records one. */
  datatype Info = Info(status: Status, finishedAt: string, updatedAt: string, repo: string)

  /** An entry under tasks/: not a folder, a folder whose record cannot be read, or a task. */
  datatype Entry = NotFolder | Unreadable | Task(info: Info)

  /** A managed container's task-id label; a missing or empty label is None. */
  type Label = Option<string>

  /** The instant a timestamp denotes, in seconds, when it is one. */
  type Clock = string -> Option<int>

  function ReferenceTime(info: Info): string {
    if info.finishedAt != "" then info.finishedAt else info.updatedAt
  }

  /** A finished task at least as old as the threshold. */
  predicate IsCandidate(e: Entry, clock: Clock, now: int, threshold: int) {
    && e.Task? && Terminal(e.info.status)
    && ReferenceTime(e.info) != ""
    && clock(ReferenceTime(e.info)).Some?
    && now - clock(ReferenceTime(e.info)).value >= threshold
  }

  predicate IsOrphan(tag: Label, tasks: map<string, Entry>) {
    tag.Some? && tag.value !in tasks
  }

  /** How the run's calls come out: whether Docker is reachable and its two listings answer, the
      operator's reply, which folders and containers can be removed, and what a failed folder removal
      leaves behind. */
  datatype Weather = Weather(
    docker: bool, firstList: bool, secondList: bool, dryRun: bool, skipPrompt: bool, reply: bool,
    canRemove: string -> bool, damaged: string -> Entry, canKill: nat -> bool)

  /** Everything answers and nothing fails. */
  ghost predicate Fine(w: Weather) {
    && w.docker && w.firstList && w.secondList && !w.dryRun && (w.skipPrompt || w.reply)
    && (forall id :: w.canRemove(id)) && (forall c :: w.canKill(c))
  }

  ghost predicate ListingOf<K(!new), V>(listing: seq<K>, m: map<K, V>) {
    && (forall k :: k in listing <==> k in m)
    && (forall i, j :: 0 <= i < j < |listing| ==> listing[i] != listing[j])
  }

  function Candidates(tasks: map<string, Entry>, clock: Clock, now: int, threshold: int): set<string> {
    set id | id in tasks && IsCandidate(tasks[id], clock, now, threshold)
  }

  function Orphans(containers: map<nat, Label>, tasks: map<string, Entry>): set<nat> {
    set c | c in containers && IsOrphan(containers[c], tasks)
  }

  /** The task folders after the removal loop. */
  ghost function TasksLeft(tasks: map<string, Entry>, candidates: set<string>, w: Weather): map<string, Entry> {
    map id | id in tasks && !(id in candidates && w.canRemove(id))
      :: if id in candidates then w.damaged(id) else tasks[id]
  }

  /** The containers after the prune loop. */
  ghost function ContainersLeft(containers: map<nat, Label>, orphans: set<nat>, w: Weather): map<nat, Label> {
    map c | c in containers && !(c in orphans && w.canKill(c)) :: containers[c]
  }

  function RepoOf(e: Entry): string {
    if e.Task? then e.info.repo else ""
  }

  /** The repositories whose worktree lists get pruned: those of the removed tasks, in removal order. */
  function PrunesFor(tasks: map<string, Entry>, ids: seq<string>, w: Weather): seq<string>
    requires forall id :: id in ids ==> id in tasks
  {
    if ids == [] then []
    else
      var id := ids[|ids| - 1];
      PrunesFor(tasks, ids[..|ids| - 1], w)
      + if w.canRemove(id) && RepoOf(tasks[id]) != "" then [RepoOf(tasks[id])] else []
  }

  lemma {:induction false} PrunesAreOfRemoved(tasks: map<string, Entry>, ids: seq<string>, w: Weather, repo: string)
    requires forall id :: id in ids ==> id in tasks
    ensures repo in PrunesFor(tasks, ids, w) <==>
              repo != "" && exists id :: id in ids && w.canRemove(id) && RepoOf(tasks[id]) == repo
  {
    if ids != [] {
      var n := |ids| - 1;
      PrunesAreOfRemoved(tasks, ids[..n], w, repo);
      assert forall id :: id in ids <==> id in ids[..n] || id == ids[n];
    }
  }

  /** What the removal loop has done with the first candidates. */
  ghost predicate RemovedSoFar(was: map<string, Entry>, before: seq<string>, ids: seq<string>, w: Weather,
                               tasks: map<string, Entry>, prunes: seq<string>, failures: nat)
    requires forall id :: id in ids ==> id in was
  {
    && tasks == TasksLeft(was, Members(ids), w)
    && prunes == before + PrunesFor(was, ids, w)
    && (failures == 0 <==> forall id :: id in ids ==> w.canRemove(id))
  }

  lemma NextRemoval(was: map<string, Entry>, before: seq<string>, ids: seq<string>, id: string, w: Weather,
                    tasks: map<string, Entry>, prunes: seq<string>, failures: nat)
    requires (forall x :: x in ids ==> x in was) && id in was && id !in ids
    requires RemovedSoFar(was, before, ids, w, tasks, prunes, failures)
    ensures id in tasks && tasks[id] == was[id]
    ensures var ok := w.canRemove(id);
            RemovedSoFar(was, before, ids + [id], w, if ok then tasks - {id} else tasks[id := w.damaged(id)],
                         prunes + (if ok && RepoOf(was[id]) != "" then [RepoOf(was[id])] else []),
                         if ok then failures else failures + 1)
  {
    assert (ids + [id])[..|ids|] == ids;
  }

  ghost function Members<T>(s: seq<T>): set<T> {
    set x | x in s
  }

  class DataRoot {
    var tasks: map<string, Entry>
    var containers: map<nat, Label>
    var prunes: seq<string>

    constructor (tasks: map<string, Entry>, containers: map<nat, Label>)
      ensures this.tasks == tasks && this.containers == containers && prunes == []
    {
      this.tasks, this.containers, prunes := tasks, containers, [];
    }

    method EnumerateCandidates(listing: seq<string>, clock: Clock, now: int, threshold: int) returns (out: seq<string>)
      requires ListingOf(listing, tasks)
      ensures forall id :: id in out <==> id in Candidates(tasks, clock, now, threshold)
      ensures forall i, j :: 0 <= i < j < |out| ==> out[i] != out[j]
    {
      out := [];
      var i := 0;
      while i < |listing|
        invariant 0 <= i <= |listing|
        invariant forall id :: id in out <==> id in listing[..i] && IsCandidate(tasks[id], clock, now, threshold)
        invariant forall j, k :: 0 <= j < k < |out| ==> out[j] != out[k]
      {
        var id := listing[i];
        assert listing[..i + 1] == listing[..i] + [id];
        assert id !in listing[..i];
        var e := tasks[id];
        if e.Task? && Terminal(e.info.status) {
          var ref := ReferenceTime(e.info);
          if ref != "" {
            var at := clock(ref);
            if at.Some? && now - at.value >= threshold {
              out := out + [id];
            }
          }
        }
        i := i + 1;
      }
      assert listing[..i] == listing;
    }

    /** Without Docker, or when its listing fails, no orphan is found. */
    method EnumerateOrphans(listing: seq<nat>, docker: bool, listed: bool) returns (out: seq<nat>)
      requires ListingOf(listing, containers)
      ensures forall c :: c in out <==> docker && listed && c in Orphans(containers, tasks)
      ensures forall i, j :: 0 <= i < j < |out| ==> out[i] != out[j]
    {
      out := [];
      if !docker || !listed {
        return;
      }
      var i := 0;
      while i < |listing|
        invariant 0 <= i <= |listing|
        invariant forall c :: c in out <==> c in listing[..i] && IsOrphan(containers[c], tasks)
        invariant forall j, k :: 0 <= j < k < |out| ==> out[j] != out[k]
      {
        var c := listing[i];
        assert listing[..i + 1] == listing[..i] + [c];
        assert c !in listing[..i];
        if containers[c].Some? && containers[c].value !in tasks {
          out := out + [c];
        }
        i := i + 1;
      }
      assert listing[..i] == listing;
    }

    /** One folder, and then the worktree list of its repository; a folder that could not be removed keeps
        its entry there. */
    method RemoveTask(id: string, w: Weather) returns (ok: bool)
      requires id in tasks
      modifies this`tasks, this`prunes
      ensures ok == w.canRemove(id)
      ensures tasks == if ok then old(tasks) - {id} else old(tasks)[id := w.damaged(id)]
      ensures prunes == old(prunes) + if ok && RepoOf(old(tasks)[id]) != "" then [RepoOf(old(tasks)[id])] else []
    {
      ok := w.canRemove(id);
      if !ok {
        tasks := tasks[id := w.damaged(id)];
        return;
      }
      var repo := RepoOf(tasks[id]);
      tasks := tasks - {id};
      if repo != "" {
        prunes := prunes + [repo];
      }
    }

    method RemoveTasks(candidates: seq<string>, w: Weather) returns (failures: nat)
      requires forall id :: id in candidates ==> id in tasks
      requires forall i, j :: 0 <= i < j < |candidates| ==> candidates[i] != candidates[j]
      modifies this`tasks, this`prunes
      ensures tasks == TasksLeft(old(tasks), Members(candidates), w)
      ensures failures == 0 <==> forall id :: id in candidates ==> w.canRemove(id)
      ensures prunes == old(prunes) + PrunesFor(old(tasks), candidates, w)
    {
      failures := 0;
      ghost var was, before := tasks, prunes;
      var i := 0;
      while i < |candidates|
        invariant 0 <= i <= |candidates|
        invariant RemovedSoFar(was, before, candidates[..i], w, tasks, prunes, failures)
      {
        var id := candidates[i];
        NextRemoval(was, before, candidates[..i], id, w, tasks, prunes, failures);
        assert candidates[..i + 1] == candidates[..i] + [id];
        var ok := RemoveTask(id, w);
        if !ok {
          failures := failures + 1;
        }
        i := i + 1;
      }
      assert candidates[..i] == candidates;
    }

    method PruneOrphans(orphans: seq<nat>, w: Weather) returns (failures: nat)
      requires forall c :: c in orphans ==> c in containers
      requires forall i, j :: 0 <= i < j < |orphans| ==> orphans[i] != orphans[j]
      modifies this`containers
      ensures containers == ContainersLeft(old(containers), Members(orphans), w)
      ensures failures == 0 <==> forall c :: c in orphans ==> w.canKill(c)
    {
      failures := 0;
      var i := 0;
      while i < |orphans|
        invariant 0 <= i <= |orphans|
        invariant containers == ContainersLeft(old(containers), Members(orphans[..i]), w)
        invariant failures == 0 <==> forall c :: c in orphans[..i] ==> w.canKill(c)
      {
        var c := orphans[i];
        assert orphans[..i + 1] == orphans[..i] + [c];
        assert c !in orphans[..i];
        if w.canKill(c) {
          containers := containers - {c};
        } else {
          failures := failures + 1;
        }
        i := i + 1;
      }
      assert orphans[..i] == orphans;
    }

    /** The whole command: find, ask, remove tasks, look for orphans again, prune them. */
    method Run(taskListing: seq<string>, ctrListing: seq<nat>, clock: Clock, now: int, threshold: int, w: Weather)
      returns (exitCode: nat)
      requires ListingOf(taskListing, tasks) && ListingOf(ctrListing, containers)
      modifies this
      ensures Cleaned(old(tasks), old(containers), clock, now, threshold, w, tasks, containers, exitCode)
      ensures Pruned(old(tasks), old(containers), clock, now, threshold, w, old(prunes), prunes)
    {
      var candidates := EnumerateCandidates(taskListing, clock, now, threshold);
      var orphans := EnumerateOrphans(ctrListing, w.docker, w.firstList);
      ghost var found := Candidates(tasks, clock, now, threshold);
      assert found == Members(candidates);
      assert candidates == [] <==> found == {} by {
        if candidates != [] {
          assert candidates[0] in found;
        }
      }
      assert orphans == [] <==> !(w.docker && w.firstList) || Orphans(containers, tasks) == {} by {
        if orphans != [] {
          assert orphans[0] in Orphans(containers, tasks);
        }
      }
      if candidates == [] && orphans == [] {
        return 0;
      }
      if w.dryRun {
        return 0;
      }
      if !w.skipPrompt && !w.reply {
        return 0;
      }
      ghost var was := tasks;
      var failures := RemoveTasks(candidates, w);
      forall repo {
        PrunesAreOfRemoved(was, candidates, w, repo);
      }
      var finalOrphans := EnumerateOrphans(ctrListing, w.docker, w.secondList);
      assert Members(finalOrphans) ==
             if w.docker && w.secondList then Orphans(containers, tasks) else {};
      var more := PruneOrphans(finalOrphans, w);
      exitCode := if failures + more > 0 then 1 else 0;
    }
  }

  /** The run got past the questions: there was something to do and it was confirmed. */
  predicate Proceeds(tasks: map<string, Entry>, containers: map<nat, Label>,
                     clock: Clock, now: int, threshold: int, w: Weather)
  {
    && (Candidates(tasks, clock, now, threshold) != {}
        || (w.docker && w.firstList && Orphans(containers, tasks) != {}))
    && !w.dryRun && (w.skipPrompt || w.reply)
  }

  /** Which repositories are pruned: exactly those of the tasks that were removed. */
  ghost predicate Pruned(tasks: map<string, Entry>, containers: map<nat, Label>,
                         clock: Clock, now: int, threshold: int, w: Weather, before: seq<string>, after: seq<string>)
  {
    var found := Candidates(tasks, clock, now, threshold);
    && before <= after
    && forall repo :: repo in after[|before|..] <==>
         && Proceeds(tasks, containers, clock, now, threshold, w)
         && repo != "" && exists id :: id in found && w.canRemove(id) && RepoOf(tasks[id]) == repo
  }

  /** What one clean leaves, whatever fails. */
  ghost predicate Cleaned(tasks: map<string, Entry>, containers: map<nat, Label>,
                          clock: Clock, now: int, threshold: int, w: Weather,
                          tasks': map<string, Entry>, containers': map<nat, Label>, exitCode: nat)
  {
    var found := Candidates(tasks, clock, now, threshold);
    if !Proceeds(tasks, containers, clock, now, threshold, w) then
      tasks' == tasks && containers' == containers && exitCode == 0
    else
      var orphans := if w.docker && w.secondList then Orphans(containers, tasks') else {};
      && tasks' == TasksLeft(tasks, found, w)
      && containers' == ContainersLeft(containers, orphans, w)
      && (exitCode == 0 <==>
            (forall id :: id in found ==> w.canRemove(id)) && (forall c :: c in orphans ==> w.canKill(c)))
      && exitCode <= 1
  }

  /** Main result: after a confirmed clean in which nothing fails, no old finished task remains, every
      labelled managed container has its folder, everything else is as it was, and the exit code is 0. */
  lemma CleanReclaimsExactly(tasks: map<string, Entry>, containers: map<nat, Label>,
                             clock: Clock, now: int, threshold: int, w: Weather,
                             tasks': map<string, Entry>, containers': map<nat, Label>, exitCode: nat)
    requires Cleaned(tasks, containers, clock, now, threshold, w, tasks', containers', exitCode)
    requires Fine(w)
    ensures exitCode == 0
    ensures forall id :: id in tasks' <==> id in tasks && !IsCandidate(tasks[id], clock, now, threshold)
    ensures forall id :: id in tasks' ==> tasks'[id] == tasks[id]
    ensures forall c :: c in containers' <==> c in containers && !IsOrphan(containers[c], tasks')
    ensures forall c :: c in containers' ==> containers'[c] == containers[c]
  {
    assert forall id :: id in Candidates(tasks, clock, now, threshold) <==>
             id in tasks && IsCandidate(tasks[id], clock, now, threshold);
    assert forall c :: c in Orphans(containers, tasks) <==> c in containers && IsOrphan(containers[c], tasks);
  }

  /** Whatever fails: only candidates' folders and orphans are ever touched, the orphans being judged
      after the folders were removed; and exit code 0 of a run with both listings means the work is done. */
  lemma CleanTouchesOnlyTargets(tasks: map<string, Entry>, containers: map<nat, Label>,
                                clock: Clock, now: int, threshold: int, w: Weather,
                                tasks': map<string, Entry>, containers': map<nat, Label>, exitCode: nat)
    requires Cleaned(tasks, containers, clock, now, threshold, w, tasks', containers', exitCode)
    ensures forall id :: id in tasks && !IsCandidate(tasks[id], clock, now, threshold) ==>
              id in tasks' && tasks'[id] == tasks[id]
    ensures forall id :: id in tasks' ==> id in tasks
    ensures forall c :: c in containers && !IsOrphan(containers[c], tasks') ==>
              c in containers' && containers'[c] == containers[c]
    ensures forall c :: c in containers' ==> c in containers && containers'[c] == containers[c]
    ensures exitCode == 0 && Proceeds(tasks, containers, clock, now, threshold, w) && w.docker && w.secondList ==>
              (forall id :: id in tasks' ==> !IsCandidate(tasks[id], clock, now, threshold))
              && (forall c :: c in containers' ==> !IsOrphan(containers[c], tasks'))
  {
  }

  // ----- The same without the names of the selection -----

  /** What clean must leave: no folder, an unreadable record, a task that is not finished, or a finished one
      whose time of finishing (or of the last update, where there is none) is missing, no time, or less
      than the threshold ago. */
  predicate Spared(e: Entry, clock: Clock, now: int, threshold: int) {
    match e
    case NotFolder => true
    case Unreadable => true
    case Task(Info(status, finishedAt, updatedAt, _)) =>
      || status !in {Completed, Failed, Cancelled}
      || (finishedAt != "" && TooYoung(finishedAt, clock, now, threshold))
      || (finishedAt == "" && (updatedAt == "" || TooYoung(updatedAt, clock, now, threshold)))
  }

  predicate TooYoung(ts: string, clock: Clock, now: int, threshold: int) {
    match clock(ts)
    case None => true
    case Some(at) => now - at < threshold
  }

  lemma SparedAreNoCandidates(e: Entry, clock: Clock, now: int, threshold: int)
    ensures Spared(e, clock, now, threshold) <==> !IsCandidate(e, clock, now, threshold)
  {
  }

  /** Main result: whatever fails, a spared task and a container without a label or with an entry under its
      label are as before; without a confirmation, or on a dry run, everything is. After a confirmed run in
      which nothing fails every other task and container is gone, a finished task exactly as old as the
      threshold included; and a confirmed run that cannot remove one of them says so in its exit code. */
  lemma CleanSparesTheRest(tasks: map<string, Entry>, containers: map<nat, Label>,
                           clock: Clock, now: int, threshold: int, w: Weather,
                           tasks': map<string, Entry>, containers': map<nat, Label>, exitCode: nat)
    requires Cleaned(tasks, containers, clock, now, threshold, w, tasks', containers', exitCode)
    ensures forall id :: id in tasks && Spared(tasks[id], clock, now, threshold) ==>
              id in tasks' && tasks'[id] == tasks[id]
    ensures forall c :: c in containers && (containers[c].None? || containers[c].value in tasks') ==>
              c in containers' && containers'[c] == containers[c]
    ensures w.dryRun || !(w.skipPrompt || w.reply) ==>
              tasks' == tasks && containers' == containers && exitCode == 0
    ensures !w.docker ==> containers' == containers
    ensures Fine(w) ==> forall id :: id in tasks && !Spared(tasks[id], clock, now, threshold) ==> id !in tasks'
    ensures Fine(w) ==> forall c :: c in containers && containers[c].Some? && containers[c].value !in tasks' ==>
              c !in containers'
    ensures !w.dryRun && (w.skipPrompt || w.reply) ==>
              forall id :: id in tasks && !Spared(tasks[id], clock, now, threshold) ==>
                if w.canRemove(id) then id !in tasks' else exitCode == 1
  {
    forall id | id in tasks ensures Spared(tasks[id], clock, now, threshold) <==>
                                      id !in Candidates(tasks, clock, now, threshold) {
      SparedAreNoCandidates(tasks[id], clock, now, threshold);
    }
    CleanTouchesOnlyTargets(tasks, containers, clock, now, threshold, w, tasks', containers', exitCode);
    if Fine(w) {
      CleanReclaimsExactly(tasks, containers, clock, now, threshold, w, tasks', containers', exitCode);
    }
  }

  /** The threshold itself is old enough. */
  lemma ThresholdIsReached(e: Entry, clock: Clock, now: int, threshold: int)
    requires e.Task? && e.info.status in {Completed, Failed, Cancelled} && e.info.finishedAt != ""
    requires clock(e.info.finishedAt) == Some(now - threshold)
    ensures !Spared(e, clock, now, threshold)
  {
  }
}
