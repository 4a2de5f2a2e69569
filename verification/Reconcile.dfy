/** The status truth table: what a stored status becomes, given the container and the latest event. */
module Reconcile {
  import opened Common
  import Journal

  /** Unknown stands for any stored string that is none of the seven names. */
  datatype Status =
    | Created | Running | Interrupted | WaitingForUser
    | Completed | Failed | Cancelled
    | Unknown(raw: string)

  predicate Terminal(s: Status) {
    s == Completed || s == Failed || s == Cancelled
  }

  /** Other stands for a state the daemon may report that this table does not name. */
  datatype CtrState =
    | CtrRunning | CtrExited | CtrPaused | CtrRestarting | CtrCreated | CtrDead | CtrRemoving
    | CtrNotFound
    | CtrOther(raw: string)

  predicate LostRun(c: CtrState) {
    c == CtrPaused || c == CtrRestarting || c == CtrCreated || c == CtrDead || c == CtrRemoving
  }

  datatype Note = LeakedContainer | UnknownStatus

  datatype Computed = Computed(status: Status, transitioned: bool, notes: seq<Note>, failureReason: string)

  const MISSING_AT_CREATION: string :=
    "reconcile: container missing while status=created (controller crash?)"

  function ComputeStatus(current: Status, ctr: CtrState, exit: Option<int>, event: Option<Journal.Kind>): Computed {
    match current
    case Unknown(_) => Computed(current, false, [UnknownStatus], "")
    case Completed => Leaked(current, ctr)
    case Failed => Leaked(current, ctr)
    case Cancelled => Leaked(current, ctr)
    case Interrupted => Computed(current, false, [], "")
    case Running => FromRunning(ctr, exit, event)
    case Created => FromCreated(ctr, event)
    case WaitingForUser => FromWaiting(ctr, exit, event)
  }

  function Leaked(current: Status, ctr: CtrState): Computed {
    Computed(current, false, if ctr == CtrNotFound then [] else [LeakedContainer], "")
  }

  function FromRunning(ctr: CtrState, exit: Option<int>, event: Option<Journal.Kind>): Computed {
    if event == Some(Journal.Done) then Computed(Completed, true, [], "")
    else if event == Some(Journal.Fail) then Computed(Failed, true, [], "")
    else if ctr == CtrRunning then
      if event == Some(Journal.Wait) then Computed(WaitingForUser, true, [], "")
      else Computed(Running, false, [], "")
    else if ctr == CtrExited then
      if exit == Some(0) then Computed(Interrupted, true, [], "") else Computed(Failed, true, [], "")
    else if ctr == CtrNotFound then Computed(Interrupted, true, [], "")
    else if LostRun(ctr) then Computed(Interrupted, true, [], "")
    else Computed(Running, false, [], "")
  }

  function FromCreated(ctr: CtrState, event: Option<Journal.Kind>): Computed {
    if event == Some(Journal.Done) then Computed(Completed, true, [], "")
    else if event == Some(Journal.Fail) then Computed(Failed, true, [], "")
    else if ctr == CtrRunning then Computed(Running, true, [], "")
    else if ctr == CtrNotFound then Computed(Failed, true, [], MISSING_AT_CREATION)
    else Computed(Failed, true, [], "")
  }

  function FromWaiting(ctr: CtrState, exit: Option<int>, event: Option<Journal.Kind>): Computed {
    if event == Some(Journal.Done) then Computed(Completed, true, [], "")
    else if event == Some(Journal.Fail) then Computed(Failed, true, [], "")
    else if ctr == CtrRunning then Computed(WaitingForUser, false, [], "")
    else if ctr == CtrExited then
      if exit == Some(0) then Computed(Interrupted, true, [], "") else Computed(Failed, true, [], "")
    else if ctr == CtrNotFound then Computed(Interrupted, true, [], "")
    else if LostRun(ctr) then Computed(Interrupted, true, [], "")
    else Computed(WaitingForUser, false, [], "")
  }

  /** The status changes that listing can make. */
  predicate ListEdge(a: Status, b: Status) {
    match a
    case Created => b == Running || b == Completed || b == Failed
    case Running => b == WaitingForUser || b == Interrupted || b == Completed || b == Failed
    case WaitingForUser => b == Interrupted || b == Completed || b == Failed
    case _ => false
  }

  /** `transitioned` says exactly that the status differs, and then the change is a list edge. */
  lemma TransitionsAreListEdges(current: Status, ctr: CtrState, exit: Option<int>, event: Option<Journal.Kind>)
    ensures var c := ComputeStatus(current, ctr, exit, event);
            && (c.transitioned <==> c.status != current)
            && (c.transitioned ==> ListEdge(current, c.status))
  {
  }

  /** Every list edge is taken for some container and event: the graph has no idle edge. */
  lemma ListEdgesAreTaken(a: Status, b: Status) returns (ctr: CtrState, exit: Option<int>, event: Option<Journal.Kind>)
    requires ListEdge(a, b)
    ensures ComputeStatus(a, ctr, exit, event).status == b && ComputeStatus(a, ctr, exit, event).transitioned
  {
    ctr, exit, event := CtrRunning, None, None;
    match b {
      case Completed => event := Some(Journal.Done);
      case Failed => event := Some(Journal.Fail);
      case WaitingForUser => event := Some(Journal.Wait);
      case Interrupted => ctr := CtrNotFound;
      case _ =>
    }
  }

  /** Evaluating again against the same container with no new event changes nothing. */
  lemma ComputedIsStable(current: Status, ctr: CtrState, exit: Option<int>, event: Option<Journal.Kind>)
    ensures var c := ComputeStatus(current, ctr, exit, event);
            var again := ComputeStatus(c.status, ctr, exit, None);
            again.status == c.status && !again.transitioned
  {
  }

  /** A done or fail event decides the status, whatever the container does, exactly from the three
      statuses that a task runs in. */
  lemma TerminalEventDecides(current: Status, ctr: CtrState, exit: Option<int>, done: bool)
    ensures var c := ComputeStatus(current, ctr, exit, Some(if done then Journal.Done else Journal.Fail));
            c.transitioned && c.status == (if done then Completed else Failed)
            <==> current in {Created, Running, WaitingForUser}
  {
  }
}
