/** One connection-retry task: its state, the handler of its delayed work and a thread that
    cancels it. The kernel runs at most one handler of a work item at a time. */
module RetryTask {
  import opened Wrappers
  import opened Net

  datatype TaskState = CrWaiting | CrConnecting | CrCancel | CrStop

  /** Where the handler stands. */
  datatype Handler =
    | Resting
    | Trying                  // in sock_connect_target
    | Rescheduled             // failed and queued again, state not yet set back
    | Reached                 // connected, about to call cr_done_fn
    | Found(conn: ConnId)     // cr_done_fn found this connection
    | Offered(taken: bool)    // cr_done_fn returned
    | Unlinked(taken: bool)   // off the retry queue
    | Ended(taken: bool)      // task freed

  /** Where a cancelling thread stands: it removed the task; the work is idle; task freed. */
  datatype Canceller = NoCancel | Claimed | Synced | Cleared

  datatype Task = Task(
    addr: Addr,
    sock: SockId,
    st: TaskState,
    scheduled: bool,          // delayed work pending
    handler: Handler,
    cancel: Canceller,
    releases: nat,            // times the task was freed
    given: nat,               // times its wrapper was accepted by a connection
    sockFrees: nat)           // times its wrapper was freed by the task code

  function NewTask(addr: Addr, sock: SockId): Task {
    Task(addr, sock, CrWaiting, true, Resting, NoCancel, 0, 0, 0)
  }

  // ---------------------------------------------------------------- handler

  /** The delayed work starts: it gives up when the manager stops or the task is cancelled. */
  function FireTask(x: Task, running: bool): Task {
    if !running || x.st.CrCancel? || x.st.CrStop? then x.(scheduled := false)
    else x.(scheduled := false, st := CrConnecting, handler := Trying)
  }

  function FailTask(x: Task): Task { x.(scheduled := true, handler := Rescheduled) }

  function SettleTask(x: Task): Task {
    x.(handler := Resting, st := if x.st.CrConnecting? then CrWaiting else x.st)
  }

  /** No connection of the address in the pool, or the manager is stopping: refused. */
  function LookUpTask(x: Task, found: Option<ConnId>): Task {
    x.(handler := if found.Some? then Found(found.value) else Offered(false))
  }

  function DeliverTask(x: Task, taken: bool): Task {
    x.(handler := Offered(taken), given := if taken then x.given + 1 else x.given)
  }

  function UnlinkTask(x: Task): Task
    requires x.handler.Offered?
  {
    x.(handler := Unlinked(x.handler.taken), st := CrStop)
  }

  /** The wrapper is freed only when the connection did not take it. */
  function ReleaseTask(x: Task): Task
    requires x.handler.Unlinked?
  {
    x.(handler := Ended(x.handler.taken), releases := x.releases + 1,
       sockFrees := if x.handler.taken then x.sockFrees else x.sockFrees + 1)
  }

  // ---------------------------------------------------------------- canceller

  function ClaimTask(x: Task): Task { x.(st := CrCancel, cancel := Claimed) }

  /** `cancel_delayed_work_sync`: the work is neither pending nor running. */
  function SyncTask(x: Task): Task { x.(scheduled := false, cancel := Synced) }

  function ClearTask(x: Task): Task { x.(cancel := Cleared, releases := x.releases + 1, sockFrees := x.sockFrees + 1) }

  // ---------------------------------------------------------------- invariant

  predicate Busy(h: Handler) { h.Trying? || h.Rescheduled? || h.Reached? || h.Found? || h.Offered? }

  predicate Finished(h: Handler) { h.Unlinked? || h.Ended? }

  /** The task is on the retry queue. */
  predicate Linked(x: Task) { x.cancel.NoCancel? && !Finished(x.handler) }

  predicate Gave(h: Handler) { h == Offered(true) || h == Unlinked(true) || h == Ended(true) }

  /** The wrapper is the task's own. */
  predicate HoldsSock(x: Task) { !Gave(x.handler) && !x.handler.Ended? && !x.cancel.Cleared? }

  ghost predicate TaskInv(x: Task) {
    && (x.st.CrWaiting? <==> x.handler.Resting? && x.cancel.NoCancel?)
    && (x.st.CrConnecting? <==> Busy(x.handler))
    && (x.st.CrStop? <==> Finished(x.handler))
    && (x.st.CrCancel? <==> !x.cancel.NoCancel?)
    && (x.scheduled ==> (x.handler.Resting? || x.handler.Rescheduled?) && (x.cancel.NoCancel? || x.cancel.Claimed?))
    && (x.handler.Rescheduled? ==> x.scheduled)
    && x.releases == One(x.handler.Ended?) + One(x.cancel.Cleared?)
    && x.given == One(Gave(x.handler))
    && x.sockFrees == One(x.handler == Ended(false)) + One(x.cancel.Cleared?)
  }

  /** The handler up to the lookup: the queue and the wrapper are left alone. */
  ghost predicate SamePart(x: Task, y: Task) {
    && TaskInv(y) && y.addr == x.addr && y.sock == x.sock && y.given == x.given && y.sockFrees == x.sockFrees
    && Linked(y) == Linked(x) && HoldsSock(y) == HoldsSock(x)
  }

  lemma FireKeeps(x: Task, running: bool)
    requires TaskInv(x) && x.scheduled && x.handler.Resting?
    ensures SamePart(x, FireTask(x, running))
  {
  }

  lemma TryingKeeps(x: Task)
    requires TaskInv(x) && x.handler.Trying?
    ensures SamePart(x, FailTask(x)) && SamePart(x, x.(handler := Reached))
  {
  }

  lemma SettleKeeps(x: Task)
    requires TaskInv(x) && x.handler.Rescheduled?
    ensures SamePart(x, SettleTask(x))
  {
  }

  lemma LookUpKeeps(x: Task, found: Option<ConnId>)
    requires TaskInv(x) && x.handler.Reached?
    ensures SamePart(x, LookUpTask(x, found))
  {
  }

  lemma DeliverKeeps(x: Task)
    requires TaskInv(x) && x.handler.Found?
    ensures HoldsSock(x) && SamePart(x, DeliverTask(x, false))
    ensures var y := DeliverTask(x, true); TaskInv(y) && Linked(y) == Linked(x) && !HoldsSock(y) && y.sockFrees == 0
  {
  }

  lemma LeaveKeeps(x: Task)
    requires TaskInv(x)
    ensures x.handler.Offered? ==> var y := UnlinkTask(x);
            && TaskInv(y) && !Linked(y) && HoldsSock(y) == HoldsSock(x)
            && y.given == x.given && y.sockFrees == x.sockFrees
    ensures x.st.CrWaiting? ==> var y := ClaimTask(x);
            && TaskInv(y) && !Linked(y) && HoldsSock(y) == HoldsSock(x)
            && y.given == x.given && y.sockFrees == x.sockFrees
    ensures x.handler.Offered? || x.st.CrWaiting? ==> Linked(x) && !x.handler.Found?
  {
  }

  lemma ReleaseKeeps(x: Task)
    requires TaskInv(x) && x.handler.Unlinked?
    ensures var y := ReleaseTask(x);
            if x.handler.taken then SamePart(x, y)
            else TaskInv(y) && HoldsSock(x) && !HoldsSock(y) && Linked(y) == Linked(x) && y.given == 0
  {
  }

  lemma CancelKeeps(x: Task)
    requires TaskInv(x)
    ensures x.cancel.Claimed? && x.handler.Resting? ==> SamePart(x, SyncTask(x))
    ensures x.cancel.Synced? ==>
            var y := ClearTask(x);
            && TaskInv(y) && HoldsSock(x) && !HoldsSock(y) && Linked(y) == Linked(x) && y.given == 0
            && !y.handler.Found?
  {
  }

  /** What the invariant says about ownership: freed at most once, by success or by cancel, and
      a freed task has given its wrapper away or freed it, never both and never neither. */
  lemma ReleasedOnce(x: Task)
    requires TaskInv(x)
    ensures x.releases <= 1 && x.given + x.sockFrees <= 1
    ensures x.releases == 1 ==> x.given + x.sockFrees == 1 && !Linked(x) && !x.scheduled
    ensures !(x.handler.Ended? && x.cancel.Cleared?)
    ensures HoldsSock(x) <==> x.given + x.sockFrees == 0
  {
  }
}
