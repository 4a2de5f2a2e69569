/** Task ids: an alias and a number from a per-alias counter that is published under a per-alias lock. */
module Ids {
  import opened Common

  // ----- Shapes -----

  predicate Leading(c: char) {
    'a' <= c <= 'z' || IsDigit(c)
  }

  predicate Inner(c: char) {
    Leading(c) || c == '-'
  }

  /** One leading character and at most max - 1 inner ones. */
  predicate Shape(s: string, max: nat) {
    1 <= |s| <= max && Leading(s[0]) && forall i :: 1 <= i < |s| ==> Inner(s[i])
  }

  /** The validators' patterns end in `$`, which also matches before a newline at the very end. */
  predicate Accepts(s: string, max: nat) {
    Shape(s, max) || (s != "" && s[|s| - 1] == '\n' && Shape(s[..|s| - 1], max))
  }

  predicate ValidTaskId(s: string) {
    Accepts(s, 64)
  }

  predicate ValidAlias(s: string) {
    s != "" && Accepts(s, 60)
  }

  /** Small letters, digits and dashes, no dash in front, at most max of them. */
  predicate Label(s: string, max: nat) {
    1 <= |s| <= max && s[0] != '-' && forall c :: c in s ==> 'a' <= c <= 'z' || '0' <= c <= '9' || c == '-'
  }

  /** An alias is a label of at most 60 characters, an id one of at most 64, each with a newline behind it or
      not. */
  lemma AcceptedNames(s: string)
    ensures ValidAlias(s) <==> exists l :: Label(l, 60) && (s == l || s == l + "\n")
    ensures ValidTaskId(s) <==> exists l :: Label(l, 64) && (s == l || s == l + "\n")
  {
    AcceptedLabels(s, 60);
    AcceptedLabels(s, 64);
  }

  lemma AcceptedLabels(s: string, max: nat)
    ensures Accepts(s, max) <==> exists l :: Label(l, max) && (s == l || s == l + "\n")
  {
    if Accepts(s, max) {
      var l := if Shape(s, max) then s else s[..|s| - 1];
      ShapeIsLabel(l, max);
      assert s == l || s == l + "\n";
    }
    if l :| Label(l, max) && (s == l || s == l + "\n") {
      ShapeIsLabel(l, max);
      if s != l {
        assert s[..|s| - 1] == l && s[|s| - 1] == '\n';
      }
    }
  }

  lemma ShapeIsLabel(s: string, max: nat)
    ensures Shape(s, max) <==> Label(s, max)
  {
    if Label(s, max) {
      forall i | 1 <= i < |s| ensures Inner(s[i]) {
        assert s[i] in s;
      }
      assert s[0] in s;
    }
  }

  // ----- Formatting and parsing -----

  /** A number with at least three digits, as `{n:03d}`. */
  function Padded(n: nat): (s: string)
    ensures |s| >= 3 && AllDigits(s)
    ensures n <= 999 ==> |s| == 3
  {
    var d := Decimal(n);
    if n <= 999 then
      DecimalShort(n);
      Zeros(3 - |d|) + d
    else
      DecimalLong(n);
      d
  }

  function Zeros(k: nat): (z: string)
    ensures |z| == k && forall i :: 0 <= i < k ==> z[i] == '0'
  {
    seq(k, _ => '0')
  }

  lemma DecimalLong(n: nat)
    requires n >= 100
    ensures |Decimal(n)| >= 3
  {
    assert Decimal(n) == Decimal(n / 10) + [DigitChar(n % 10)];
    assert Decimal(n / 10) == Decimal(n / 10 / 10) + [DigitChar(n / 10 % 10)];
  }

  lemma PaddedDenotes(n: nat)
    ensures Number(Padded(n)) == n
  {
    NumberOfDecimal(n);
    if n <= 999 {
      DecimalShort(n);
      NumberOfPadded(Zeros(3 - |Decimal(n)|), Decimal(n));
    }
  }

  function TaskId(alias: string, n: nat): string {
    alias + "-" + Padded(n)
  }

  /** Position just after the last dash, or 0: what rsplit("-", 1)[-1] starts from. */
  function AfterLastDash(s: string): (k: nat)
    ensures k <= |s|
    ensures forall i :: k <= i < |s| ==> s[i] != '-'
    ensures k > 0 ==> s[k - 1] == '-'
  {
    if s == "" then 0
    else if s[|s| - 1] == '-' then |s|
    else AfterLastDash(s[..|s| - 1])
  }

  function Suffix(name: string): string {
    name[AfterLastDash(name)..]
  }

  /** The number a folder name ends in, when its last dash-separated part is all digits. */
  function SuffixNumber(name: string): Option<nat> {
    if Suffix(name) != "" && AllDigits(Suffix(name)) then Some(Number(Suffix(name))) else None
  }

  lemma LastDashOfTaskId(alias: string, n: nat)
    ensures AfterLastDash(TaskId(alias, n)) == |alias| + 1
  {
    var s := TaskId(alias, n);
    var k := AfterLastDash(s);
    assert s[|alias|] == '-';
    assert forall i :: |alias| + 1 <= i < |s| ==> IsDigit(s[i]) by {
      forall i | |alias| + 1 <= i < |s| ensures IsDigit(s[i]) {
        assert s[i] == Padded(n)[i - |alias| - 1];
      }
    }
  }

  /** Alias and number are recovered from the id, whatever dashes the alias has. */
  lemma TaskIdParses(alias: string, n: nat)
    ensures var id := TaskId(alias, n);
            && AfterLastDash(id) == |alias| + 1
            && id[..AfterLastDash(id) - 1] == alias
            && SuffixNumber(id) == Some(n)
  {
    LastDashOfTaskId(alias, n);
    var id := TaskId(alias, n);
    assert id[|alias| + 1..] == Padded(n);
    PaddedDenotes(n);
  }

  lemma TaskIdInjective(a: string, m: nat, b: string, n: nat)
    requires TaskId(a, m) == TaskId(b, n)
    ensures a == b && m == n
  {
    TaskIdParses(a, m);
    TaskIdParses(b, n);
  }

  /** An accepted alias gives an accepted id exactly when it has no newline at its end and the id fits
      in 64 characters; in particular every clean alias admits every number up to 999. */
  lemma IdFits(alias: string, n: nat)
    requires ValidAlias(alias)
    ensures ValidTaskId(TaskId(alias, n)) <==>
            alias[|alias| - 1] != '\n' && |alias| + 1 + |Padded(n)| <= 64
    ensures n <= 999 && alias[|alias| - 1] != '\n' ==> ValidTaskId(TaskId(alias, n))
  {
    var id := TaskId(alias, n);
    var k := |id| - 1;
    assert id[k] == Padded(n)[|Padded(n)| - 1];
    assert IsDigit(id[k]);
    assert id[|alias| - 1] == alias[|alias| - 1];
    forall i | 0 <= i < |id|
      ensures id[i] ==
              (if i < |alias| then alias[i] else if i == |alias| then '-' else Padded(n)[i - |alias| - 1])
    {
    }
    if alias[|alias| - 1] != '\n' {
      assert Shape(alias, 60);
      forall i | 1 <= i < |id| ensures Inner(id[i]) {
      }
    } else {
      assert !Inner(id[|alias| - 1]);
      assert !Leading(id[|alias| - 1]);
    }
  }

  /** The alias check lets a trailing newline through, and then no id can ever be made. */
  lemma NewlineAliasIsAcceptedButUseless(n: nat)
    ensures ValidAlias("x\n") && !ValidTaskId(TaskId("x\n", n))
  {
    assert "x\n"[..1] == "x";
    IdFits("x\n", n);
  }

  // ----- The candidate -----

  /** The folder names that `tasks/<alias>-*` matches. */
  predicate Listed(alias: string, name: string) {
    alias + "-" <= name
  }

  function MaxOf(ns: seq<nat>): (m: nat)
    requires ns != []
    ensures m in ns && forall n :: n in ns ==> n <= m
  {
    if |ns| == 1 then ns[0]
    else
      var m := MaxOf(ns[1..]);
      assert ns == [ns[0]] + ns[1..];
      if ns[0] > m then ns[0] else m
  }

  function Candidate(counter: nat, existing: seq<nat>): (c: nat)
    ensures counter < c && forall n :: n in existing ==> n < c
    ensures c == counter + 1 || c - 1 in existing
  {
    if existing == [] || MaxOf(existing) + 1 < counter + 1 then counter + 1 else MaxOf(existing) + 1
  }

  ghost predicate ListingOf(listing: seq<string>, names: set<string>) {
    forall name :: name in listing <==> name in names
  }

  /** The numbers the folders of a listing end in, in listing order. */
  function Existing(alias: string, listing: seq<string>): (ns: seq<nat>) {
    if listing == [] then []
    else
      var last := listing[|listing| - 1];
      Existing(alias, listing[..|listing| - 1])
      + if Listed(alias, last) && SuffixNumber(last).Some? then [SuffixNumber(last).value] else []
  }

  lemma {:induction false} ExistingHasAll(alias: string, listing: seq<string>, name: string)
    requires name in listing && Listed(alias, name) && SuffixNumber(name).Some?
    ensures SuffixNumber(name).value in Existing(alias, listing)
  {
    var n := |listing| - 1;
    if listing[n] != name {
      assert name in listing[..n];
      ExistingHasAll(alias, listing[..n], name);
    }
  }

  lemma {:induction false} ExistingHasOnly(alias: string, listing: seq<string>, n: nat)
    requires n in Existing(alias, listing)
    ensures exists name :: name in listing && Listed(alias, name) && SuffixNumber(name) == Some(n)
  {
    var k := |listing| - 1;
    if n in Existing(alias, listing[..k]) {
      ExistingHasOnly(alias, listing[..k], n);
    } else {
      assert listing[k] in listing && Listed(alias, listing[k]) && SuffixNumber(listing[k]) == Some(n);
    }
  }

  // ----- The allocator, statement by statement -----

  datatype Allocated = Id(id: string) | ValueError | IoError

  /** counters and folder names under the data root; a counter file holds text. */
  class IdStore {
    var counters: map<string, string>
    var names: set<string>

    constructor ()
      ensures counters == map[] && names == {}
    {
      counters, names := map[], {};
    }

    /** One allocation under the alias lock. `listing` is what the directory scan returned; `io` says
        whether the counter write went through. */
    method AllocateTaskId(alias: string, listing: seq<string>, io: bool) returns (r: Allocated)
      requires ListingOf(listing, names)
      modifies this`counters
      ensures r == (if !ValidAlias(alias) || CounterIn(old(counters), alias).None? then ValueError
                    else
                      var n := Candidate(CounterIn(old(counters), alias).value, Existing(alias, listing));
                      if !ValidTaskId(TaskId(alias, n)) then ValueError
                      else if !io then IoError
                      else Id(TaskId(alias, n)))
      ensures r.Id? ==> exists n :: Allocates(old(counters), names, alias, n, r.id, counters)
      ensures !r.Id? ==> counters == old(counters)
    {
      if !ValidAlias(alias) {
        return ValueError;
      }
      var read := CounterIn(counters, alias);
      if read.None? {
        return ValueError;
      }
      var candidate := read.value + 1;
      var existing: seq<nat> := [];
      var i := 0;
      while i < |listing|
        invariant 0 <= i <= |listing|
        invariant existing == Existing(alias, listing[..i])
      {
        var name := listing[i];
        if Listed(alias, name) {
          var suffix := SuffixNumber(name);
          if suffix.Some? {
            existing := existing + [suffix.value];
          }
        }
        assert listing[..i + 1][..i] == listing[..i];
        i := i + 1;
      }
      assert listing[..i] == listing;
      if existing != [] {
        candidate := if MaxOf(existing) + 1 < candidate then candidate else MaxOf(existing) + 1;
      }
      assert candidate == Candidate(read.value, Existing(alias, listing));
      var newId := TaskId(alias, candidate);
      if !ValidTaskId(newId) {
        return ValueError;
      }
      if !io {
        return IoError;
      }
      counters := counters[alias := Decimal(candidate)];
      AllocatesNumber(old(counters), names, alias, read.value, candidate) by {
        NumberIsFresh(alias, names, listing, read.value, candidate);
      }
      r := Id(newId);
    }
  }

  /** A fresh number was published: the least one above the counter and above every folder of that listing. */
  ghost predicate Allocates(before: map<string, string>, names: set<string>, alias: string, n: nat,
                            id: string, after: map<string, string>)
  {
    && id == TaskId(alias, n) && ValidTaskId(id)
    && after == before[alias := Decimal(n)]
    && CounterIn(before, alias).Some? && CounterIn(before, alias).value < n
    && FoldersBelow(alias, names, n)
    && (CounterIn(before, alias).value == n - 1 || FolderHas(alias, names, n - 1))
  }

  ghost predicate FoldersBelow(alias: string, names: set<string>, n: nat) {
    forall name :: name in names && Listed(alias, name) && SuffixNumber(name).Some? ==> SuffixNumber(name).value < n
  }

  ghost predicate FolderHas(alias: string, names: set<string>, n: nat) {
    exists name :: name in names && Listed(alias, name) && SuffixNumber(name) == Some(n)
  }

  lemma NumberIsFresh(alias: string, names: set<string>, listing: seq<string>, counter: nat, n: nat)
    requires ListingOf(listing, names) && n == Candidate(counter, Existing(alias, listing))
    ensures counter < n && FoldersBelow(alias, names, n) && (n == counter + 1 || FolderHas(alias, names, n - 1))
  {
    NumberIsAbove(alias, names, listing, counter);
    NumberIsTight(alias, names, listing, counter);
  }

  lemma AllocatesNumber(before: map<string, string>, names: set<string>, alias: string, counter: nat, n: nat)
    requires CounterIn(before, alias) == Some(counter) && counter < n && ValidTaskId(TaskId(alias, n))
    requires FoldersBelow(alias, names, n) && (n == counter + 1 || FolderHas(alias, names, n - 1))
    ensures Allocates(before, names, alias, n, TaskId(alias, n), before[alias := Decimal(n)])
  {
  }

  lemma NumberIsAbove(alias: string, names: set<string>, listing: seq<string>, counter: nat)
    requires ListingOf(listing, names)
    ensures FoldersBelow(alias, names, Candidate(counter, Existing(alias, listing)))
  {
    forall name | name in names && Listed(alias, name) && SuffixNumber(name).Some?
      ensures SuffixNumber(name).value < Candidate(counter, Existing(alias, listing))
    {
      ExistingHasAll(alias, listing, name);
    }
  }

  lemma NumberIsTight(alias: string, names: set<string>, listing: seq<string>, counter: nat)
    requires ListingOf(listing, names)
    ensures var n := Candidate(counter, Existing(alias, listing));
            n == counter + 1 || FolderHas(alias, names, n - 1)
  {
    var n := Candidate(counter, Existing(alias, listing));
    if n != counter + 1 {
      ExistingHasOnly(alias, listing, n - 1);
    }
  }

  /** ASCII white space, as str.strip drops it. */
  predicate IsSpace(c: char) {
    9 as char <= c <= 13 as char || 28 as char <= c <= 32 as char
  }

  function Strip(s: string): (t: string)
    ensures t != "" ==> !IsSpace(t[0]) && !IsSpace(t[|t| - 1])
  {
    if s == "" then ""
    else if IsSpace(s[0]) then Strip(s[1..])
    else if IsSpace(s[|s| - 1]) then Strip(s[..|s| - 1])
    else s
  }

  /** Stripping drops white space at both ends and nothing else. */
  lemma {:induction false} StripDropsSpaceOnly(s: string) returns (a: string, b: string)
    ensures s == a + Strip(s) + b
    ensures (forall c :: c in a ==> IsSpace(c)) && (forall c :: c in b ==> IsSpace(c))
    decreases |s|
  {
    a, b := "", "";
    if s != "" && IsSpace(s[0]) {
      a, b := StripDropsSpaceOnly(s[1..]);
      a := [s[0]] + a;
      assert s == [s[0]] + s[1..];
    } else if s != "" && IsSpace(s[|s| - 1]) {
      a, b := StripDropsSpaceOnly(s[..|s| - 1]);
      b := b + [s[|s| - 1]];
      assert s == s[..|s| - 1] + [s[|s| - 1]];
    }
  }

  /** The counter for an alias: 0 without a file, None when the file's text is no number. */
  function CounterIn(counters: map<string, string>, alias: string): Option<nat> {
    if alias !in counters then Some(0)
    else
      var text := Strip(counters[alias]);
      if text != "" && AllDigits(text) then Some(Number(text)) else None
  }

  // ----- Any number of allocations at once -----

  datatype Proc =
    | Asking(alias: string)                       // before flock
    | Locked(alias: string)                       // before the counter is read
    | Counted(alias: string, counter: nat)        // before the directory scan
    | Scanned(alias: string, n: nat)              // before the counter is published
    | Published(alias: string, n: nat)            // before the lock is released and the id returned
    | Raising(alias: string)                      // before the lock is released
    | Returned(alias: string, n: nat)
    | Raised

  datatype Sys = Sys(
    counters: map<string, string>,
    locks: map<string, nat>,
    procs: map<nat, Proc>,
    used: set<nat>,
    issued: seq<(string, nat)>)   // alias and number of every id returned so far

  datatype Event =
    | Ask(pid: nat, alias: string)
    | Go(pid: nat, io: bool, listing: seq<string>)   // a scan lists any names: folders come and go during it
    | Kill(pid: nat)

  function Unlock(s: Sys, alias: string, pid: nat): map<string, nat> {
    if alias in s.locks && s.locks[alias] == pid then s.locks - {alias} else s.locks
  }

  function Step(s: Sys, pid: nat, p: Proc, io: bool, listing: seq<string>): Sys {
    match p
    case Asking(alias) =>
      if !ValidAlias(alias) then s.(procs := s.procs[pid := Raised])
      else if alias in s.locks then s
      else s.(locks := s.locks[alias := pid], procs := s.procs[pid := Locked(alias)])
    case Locked(alias) =>
      (match CounterIn(s.counters, alias)
       case Some(c) => s.(procs := s.procs[pid := Counted(alias, c)])
       case None => s.(procs := s.procs[pid := Raising(alias)]))
    case Counted(alias, c) =>
      s.(procs := s.procs[pid := Scanned(alias, Candidate(c, Existing(alias, listing)))])
    case Scanned(alias, n) =>
      if ValidTaskId(TaskId(alias, n)) && io then
        s.(counters := s.counters[alias := Decimal(n)], procs := s.procs[pid := Published(alias, n)])
      else s.(procs := s.procs[pid := Raising(alias)])
    case Published(alias, n) =>
      s.(locks := Unlock(s, alias, pid), procs := s.procs[pid := Returned(alias, n)],
         issued := s.issued + [(alias, n)])
    case Raising(alias) => s.(locks := Unlock(s, alias, pid), procs := s.procs[pid := Raised])
    case Returned(_, _) => s
    case Raised => s
  }

  /** The alias whose lock a process holds. */
  function Held(p: Proc): Option<string> {
    match p
    case Locked(a) => Some(a)
    case Counted(a, _) => Some(a)
    case Scanned(a, _) => Some(a)
    case Published(a, _) => Some(a)
    case Raising(a) => Some(a)
    case _ => None
  }

  function Apply(s: Sys, e: Event): Sys {
    match e
    case Ask(pid, alias) =>
      if pid in s.used then s else s.(used := s.used + {pid}, procs := s.procs[pid := Asking(alias)])
    case Go(pid, io, listing) =>
      if pid in s.procs then Step(s, pid, s.procs[pid], io, listing) else s
    case Kill(pid) =>
      if pid !in s.procs then s
      else
        s.(procs := s.procs - {pid},
           locks := if Held(s.procs[pid]).Some? then Unlock(s, Held(s.procs[pid]).value, pid) else s.locks)
  }

  function Exec(s: Sys, es: seq<Event>): Sys {
    if es == [] then s else Apply(Exec(s, es[..|es| - 1]), es[|es| - 1])
  }

  const EMPTY: Sys := Sys(map[], map[], map[], {}, [])

  /** Every returned number is at most the published counter, and below what is about to be returned. */
  ghost predicate IssuedOk(s: Sys) {
    && (forall i :: 0 <= i < |s.issued| ==>
          CounterIn(s.counters, s.issued[i].0).Some?
          && s.issued[i].1 <= CounterIn(s.counters, s.issued[i].0).value)
    && (forall i, j :: 0 <= i < j < |s.issued| ==> s.issued[i] != s.issued[j])
  }

  ghost predicate ProcOk(s: Sys, pid: nat, p: Proc) {
    && pid in s.used
    && (Held(p).Some? ==> Held(p).value in s.locks && s.locks[Held(p).value] == pid)
    && match p
       case Counted(a, c) => CounterIn(s.counters, a) == Some(c)
       case Scanned(a, n) => CounterIn(s.counters, a).Some? && CounterIn(s.counters, a).value < n
       case Published(a, n) =>
         && CounterIn(s.counters, a) == Some(n)
         && (forall i :: 0 <= i < |s.issued| && s.issued[i].0 == a ==> s.issued[i].1 < n)
       case Returned(a, n) => (a, n) in s.issued
       case _ => true
  }

  ghost predicate Inv(s: Sys) {
    IssuedOk(s) && forall pid :: pid in s.procs ==> ProcOk(s, pid, s.procs[pid])
  }

  lemma PublishCounts(counters: map<string, string>, alias: string, n: nat)
    ensures CounterIn(counters[alias := Decimal(n)], alias) == Some(n)
    ensures forall a :: a != alias ==> CounterIn(counters[alias := Decimal(n)], a) == CounterIn(counters, a)
  {
    NumberOfDecimal(n);
    assert Strip(Decimal(n)) == Decimal(n);
  }

  /** A step of another process leaves alone what this one knows: they hold different locks. */
  lemma OtherStays(s: Sys, pid: nat, io: bool, listing: seq<string>, q: nat)
    requires Inv(s) && pid in s.procs && q in s.procs && q != pid
    ensures ProcOk(Step(s, pid, s.procs[pid], io, listing), q, s.procs[q])
  {
    var p := s.procs[pid];
    assert ProcOk(s, pid, p) && ProcOk(s, q, s.procs[q]);
    assert Held(p).Some? && Held(s.procs[q]).Some? ==> Held(p).value != Held(s.procs[q]).value;
    if p.Scanned? {
      PublishCounts(s.counters, p.alias, p.n);
    }
  }

  lemma OwnPublish(s: Sys, pid: nat, io: bool, listing: seq<string>)
    requires Inv(s) && pid in s.procs && s.procs[pid].Scanned?
    ensures var t := Step(s, pid, s.procs[pid], io, listing);
            pid in t.procs && ProcOk(t, pid, t.procs[pid]) && IssuedOk(t)
  {
    var p := s.procs[pid];
    assert ProcOk(s, pid, p);
    PublishCounts(s.counters, p.alias, p.n);
  }

  lemma OwnStep(s: Sys, pid: nat, io: bool, listing: seq<string>)
    requires Inv(s) && pid in s.procs
    ensures var t := Step(s, pid, s.procs[pid], io, listing);
            pid in t.procs && ProcOk(t, pid, t.procs[pid]) && IssuedOk(t)
  {
    if s.procs[pid].Scanned? {
      OwnPublish(s, pid, io, listing);
    } else {
      assert ProcOk(s, pid, s.procs[pid]);
    }
  }

  lemma StepInv(s: Sys, pid: nat, io: bool, listing: seq<string>)
    requires Inv(s) && pid in s.procs
    ensures Inv(Step(s, pid, s.procs[pid], io, listing))
  {
    var t := Step(s, pid, s.procs[pid], io, listing);
    OwnStep(s, pid, io, listing);
    forall q | q in t.procs && q != pid ensures ProcOk(t, q, t.procs[q]) {
      OtherStays(s, pid, io, listing, q);
    }
  }

  lemma ApplyInv(s: Sys, e: Event)
    requires Inv(s)
    ensures Inv(Apply(s, e))
  {
    var t := Apply(s, e);
    match e
    case Go(pid, io, listing) =>
      if pid in s.procs {
        StepInv(s, pid, io, listing);
      }
    case _ =>
      forall q | q in t.procs ensures ProcOk(t, q, t.procs[q]) {
        if q in s.procs && t.procs[q] == s.procs[q] {
          assert ProcOk(s, q, s.procs[q]);
        }
      }
  }

  lemma {:induction false} ExecInv(es: seq<Event>)
    ensures Inv(Exec(EMPTY, es))
  {
    if es != [] {
      ExecInv(es[..|es| - 1]);
      ApplyInv(Exec(EMPTY, es[..|es| - 1]), es[|es| - 1]);
    }
  }

  /** The ids returned in a run. */
  function Issued(s: Sys): (ids: seq<string>)
    ensures |ids| == |s.issued| && forall i :: 0 <= i < |ids| ==> ids[i] == TaskId(s.issued[i].0, s.issued[i].1)
  {
    seq(|s.issued|, i requires 0 <= i < |s.issued| => TaskId(s.issued[i].0, s.issued[i].1))
  }

  /** Main result: as long as counter files stay, no two ids ever returned are equal, over every
      interleaving of allocations for all aliases, kills at any step, failed counter writes, and task
      folders coming and going. */
  lemma IdsAreNeverReused(es: seq<Event>)
    ensures var ids := Issued(Exec(EMPTY, es));
            forall i, j :: 0 <= i < j < |ids| ==> ids[i] != ids[j]
  {
    ExecInv(es);
    var s := Exec(EMPTY, es);
    forall i, j | 0 <= i < j < |s.issued| ensures Issued(s)[i] != Issued(s)[j] {
      if Issued(s)[i] == Issued(s)[j] {
        TaskIdInjective(s.issued[i].0, s.issued[i].1, s.issued[j].0, s.issued[j].1);
      }
    }
  }

  /** The number chosen exceeds the counter and every matching folder of the scan it was made from. */
  lemma CandidateIsAbove(s: Sys, pid: nat, io: bool, listing: seq<string>, name: string)
    requires Inv(s) && pid in s.procs && s.procs[pid].Counted?
    requires name in listing && Listed(s.procs[pid].alias, name) && SuffixNumber(name).Some?
    ensures var p := Step(s, pid, s.procs[pid], io, listing).procs[pid];
            && p.Scanned? && SuffixNumber(name).value < p.n
            && CounterIn(s.counters, p.alias).value < p.n
  {
    assert ProcOk(s, pid, s.procs[pid]);
    ExistingHasAll(s.procs[pid].alias, listing, name);
  }
}
