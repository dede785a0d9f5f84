/** The registry of native sessions: what it writes before it starts or cancels a session, and what that
    guarantees when memory is lost at any point while child processes live on. */
module SessionRegistry {
  import opened Options

  type Job = string
  type Sid = string

  /** One session of one job. */
  datatype Pair = Pair(job: Job, session: Sid)

  datatype Binding = Binding(session: Sid, cancelled: bool, neverStarted: bool)

  datatype Batch = Batch(session: Sid, cancelled: bool)

  /** The durable files: job bindings, bindings of batched sessions, batch records, and for each session
      with a terminal record the job it names. */
  datatype Disk = Disk(
    jobBind: map<Job, Binding>, pairBind: map<Pair, Binding>, batch: map<Job, Batch>, terminal: map<Sid, Job>)

  /** Active: may start its child. Killed: the child is dead and no other follows. Recorded: the terminal
      record has been attempted. */
  datatype Phase = Active | Killed | Recorded | Done

  datatype Row = Row(job: Job, model: string, workspace: string, cancel: bool, phase: Phase)

  datatype Request = Request(job: Job, session: Sid, batched: bool, model: string, workspace: string)

  // --- Execute. ---

  datatype Decision =
    | JobConflict | Revoked | IdentityConflict | Existing | ExistingTerminal | StateUnknown | WorkspaceInvalid | Start

  function BindingOf(disk: Disk, req: Request): Option<Binding> {
    var pair := Pair(req.job, req.session);
    if req.batched then
      if pair in disk.pairBind then Some(disk.pairBind[pair]) else None
    else if req.job in disk.jobBind then Some(disk.jobBind[req.job])
    else None
  }

  /** The job's previous session may still be at work, or never left a record. */
  predicate PreviousOpen(disk: Disk, rows: map<Sid, Row>, req: Request) {
    && req.job in disk.batch
    && disk.batch[req.job].session != req.session
    && var previous := disk.batch[req.job].session;
       (previous in rows && rows[previous].phase != Done) || previous !in disk.terminal
  }

  predicate Occupied(rows: map<Sid, Row>, req: Request) {
    exists s :: s in rows && rows[s].job == req.job && (!req.batched || rows[s].phase != Done)
  }

  function DecideBound(disk: Disk, rows: map<Sid, Row>, req: Request, workspaceOk: bool): Decision {
    var binding := BindingOf(disk, req);
    if binding.Some? && binding.value.session != req.session then JobConflict
    else if binding.Some? && binding.value.cancelled then Revoked
    else if req.session in rows then
      var row := rows[req.session];
      if row.job != req.job || row.model != req.model || row.workspace != req.workspace then IdentityConflict
      else Existing
    else if req.session in disk.terminal then
      if disk.terminal[req.session] != req.job then IdentityConflict else ExistingTerminal
    else if binding.Some? then StateUnknown
    else if Occupied(rows, req) then JobConflict
    else if !workspaceOk then WorkspaceInvalid
    else Start
  }

  function Decide(disk: Disk, rows: map<Sid, Row>, req: Request, workspaceOk: bool): Decision {
    if req.batched then
      if req.job in disk.jobBind then JobConflict
      else if req.job in disk.batch && disk.batch[req.job].cancelled then Revoked
      else if PreviousOpen(disk, rows, req) then JobConflict
      else DecideBound(disk, rows, req, workspaceOk)
    else if req.job in disk.batch then JobConflict
    else DecideBound(disk, rows, req, workspaceOk)
  }

  function BindingWritten(disk: Disk, req: Request): Disk {
    var binding := Binding(req.session, false, false);
    if req.batched then disk.(pairBind := disk.pairBind[Pair(req.job, req.session) := binding])
    else disk.(jobBind := disk.jobBind[req.job := binding])
  }

  function BatchWritten(disk: Disk, req: Request): Disk {
    if req.batched then disk.(batch := disk.batch[req.job := Batch(req.session, false)]) else disk
  }

  function Registered(rows: map<Sid, Row>, req: Request): map<Sid, Row> {
    rows[req.session := Row(req.job, req.model, req.workspace, false, Active)]
  }

  // --- Abort. ---

  function BatchCancelled(disk: Disk, job: Job): Disk {
    if job in disk.batch then disk.(batch := disk.batch[job := disk.batch[job].(cancelled := true)]) else disk
  }

  predicate AbortConflicts(disk: Disk, rows: map<Sid, Row>, pair: Pair) {
    || (pair.session in rows && rows[pair.session].job != pair.job)
    || (pair.job !in disk.batch && pair.job in disk.jobBind && disk.jobBind[pair.job].session != pair.session)
    || (pair.job in disk.batch && pair in disk.pairBind && disk.pairBind[pair].session != pair.session)
  }

  function BindingCancelled(disk: Disk, pair: Pair): Disk {
    var unseen := Binding(pair.session, true, true);
    if pair.job in disk.batch then
      disk.(pairBind := disk.pairBind[pair :=
        if pair in disk.pairBind then disk.pairBind[pair].(cancelled := true) else unseen])
    else
      disk.(jobBind := disk.jobBind[pair.job :=
        if pair.job in disk.jobBind then disk.jobBind[pair.job].(cancelled := true) else unseen])
  }

  function AbortBinding(disk: Disk, pair: Pair): Option<Binding> {
    if pair.job in disk.batch then if pair in disk.pairBind then Some(disk.pairBind[pair]) else None
    else if pair.job in disk.jobBind then Some(disk.jobBind[pair.job])
    else None
  }

  class NativeSessions {
    var disk: Disk
    var sessions: map<Sid, Row>

    constructor (found: Disk)
      ensures disk == found && sessions == map[]
    {
      disk, sessions := found, map[];
    }

    method Execute(req: Request, workspaceOk: bool) returns (decision: Decision)
      modifies this
      ensures decision == Decide(old(disk), old(sessions), req, workspaceOk)
      ensures decision != Start ==> disk == old(disk) && sessions == old(sessions)
      ensures decision == Start ==>
        disk == BatchWritten(BindingWritten(old(disk), req), req) && sessions == Registered(old(sessions), req)
    {
      if req.batched {
        if req.job in disk.jobBind {
          return JobConflict;
        }
        if req.job in disk.batch {
          if disk.batch[req.job].cancelled {
            return Revoked;
          }
          var previous := disk.batch[req.job].session;
          if previous != req.session {
            var active := previous in sessions && sessions[previous].phase != Done;
            if active || previous !in disk.terminal {
              return JobConflict;
            }
          }
        }
      } else if req.job in disk.batch {
        return JobConflict;
      }
      var binding := BindingOf(disk, req);
      if binding.Some? {
        if binding.value.session != req.session {
          return JobConflict;
        }
        if binding.value.cancelled {
          return Revoked;
        }
      }
      if req.session in sessions {
        var row := sessions[req.session];
        if row.job != req.job || row.model != req.model || row.workspace != req.workspace {
          return IdentityConflict;
        }
        return Existing;
      }
      if req.session in disk.terminal {
        if disk.terminal[req.session] != req.job {
          return IdentityConflict;
        }
        return ExistingTerminal;
      }
      if binding.Some? {
        return StateUnknown;
      }
      if Occupied(sessions, req) {
        return JobConflict;
      }
      if !workspaceOk {
        return WorkspaceInvalid;
      }
      disk := BindingWritten(disk, req);
      if req.batched {
        disk := BatchWritten(disk, req);
      }
      sessions := Registered(sessions, req);
      return Start;
    }

    /** `bound` is the binding as written, or nothing after an identity conflict. */
    method Abort(pair: Pair) returns (bound: Option<Binding>)
      modifies this`disk
      ensures var cancelled := BatchCancelled(old(disk), pair.job);
              if AbortConflicts(cancelled, sessions, pair) then disk == cancelled && bound == None
              else disk == BindingCancelled(cancelled, pair) && bound == AbortBinding(disk, pair) && bound.Some?
    {
      disk := BatchCancelled(disk, pair.job);
      if pair.session in sessions && sessions[pair.session].job != pair.job {
        return None;
      }
      var existing := AbortBinding(disk, pair);
      if existing.Some? && existing.value.session != pair.session {
        return None;
      }
      var binding := if existing.Some? then existing.value.(cancelled := true) else Binding(pair.session, true, true);
      if pair.job in disk.batch {
        disk := disk.(pairBind := disk.pairBind[pair := binding]);
      } else {
        disk := disk.(jobBind := disk.jobBind[pair.job := binding]);
      }
      return Some(binding);
    }

    method Release(session: Sid)
      modifies this`sessions
      ensures sessions == if session in old(sessions) && session in disk.terminal then old(sessions) - {session}
                          else old(sessions)
    {
      if session in disk.terminal && session in sessions {
        sessions := sessions - {session};
      }
    }
  }

  // --- Executor processes, their children, and crashes. ---

  /** Who holds the registry's lock, and how far it has come with its writes. */
  datatype Lock = Free | Bind(req: Request) | Enter(req: Request) | Launch(req: Request) | Revoke(pair: Pair)

  /** `started` lists every session ever started, `children` the processes alive. */
  datatype World = World(disk: Disk, rows: map<Sid, Row>, lock: Lock, children: set<Pair>, started: seq<Pair>)

  /** Every file write is a step of its own. */
  datatype Step =
    | BeginExecute(req: Request, workspaceOk: bool)
    | WriteBinding
    | WriteBatch
    | Register
    | ConstructFails
    | BeginAbort(pair: Pair)
    | FinishAbort
    | CancelRow(session: Sid)
    | Spawn(session: Sid)
    | Exit(child: Pair)
    | KillRow(session: Sid)
    | PersistTerminal(session: Sid, written: bool)
    | MarkDone(session: Sid)
    | Release(session: Sid)
    | Crash

  const EMPTY := World(Disk(map[], map[], map[], map[]), map[], Free, {}, [])

  predicate At(w: World, session: Sid, phase: Phase) {
    session in w.rows && w.rows[session].phase == phase
  }

  predicate Enabled(w: World, step: Step) {
    match step
    case BeginExecute(_, _) => w.lock == Free
    case WriteBinding => w.lock.Bind?
    case WriteBatch => w.lock.Enter?
    case Register => w.lock.Launch?
    case ConstructFails => w.lock.Launch?
    case BeginAbort(_) => w.lock == Free
    case FinishAbort => w.lock.Revoke?
    case CancelRow(session) => session in w.rows && w.rows[session].phase != Done
    case Spawn(session) =>
      At(w, session, Active) && !w.rows[session].cancel && Pair(w.rows[session].job, session) !in w.children
    case Exit(child) => child in w.children
    case KillRow(session) => At(w, session, Active)
    case PersistTerminal(session, _) => At(w, session, Killed)
    case MarkDone(session) => At(w, session, Recorded)
    case Release(session) => w.lock == Free && At(w, session, Done) && session in w.disk.terminal
    case Crash => true
  }

  function Moved(w: World, session: Sid, phase: Phase): World
    requires session in w.rows
  {
    w.(rows := w.rows[session := w.rows[session].(phase := phase)])
  }

  function Apply(w: World, step: Step): World
    requires Enabled(w, step)
  {
    match step
    case BeginExecute(req, workspaceOk) =>
      if Decide(w.disk, w.rows, req, workspaceOk) == Start then w.(lock := Bind(req)) else w
    case WriteBinding =>
      w.(disk := BindingWritten(w.disk, w.lock.req),
         lock := if w.lock.req.batched then Enter(w.lock.req) else Launch(w.lock.req))
    case WriteBatch => w.(disk := BatchWritten(w.disk, w.lock.req), lock := Launch(w.lock.req))
    case Register =>
      w.(rows := Registered(w.rows, w.lock.req), lock := Free,
         started := w.started + [Pair(w.lock.req.job, w.lock.req.session)])
    case ConstructFails => w.(lock := Free)
    case BeginAbort(pair) => w.(disk := BatchCancelled(w.disk, pair.job), lock := Revoke(pair))
    case FinishAbort =>
      if AbortConflicts(w.disk, w.rows, w.lock.pair) then w.(lock := Free)
      else w.(disk := BindingCancelled(w.disk, w.lock.pair), lock := Free)
    case CancelRow(session) => w.(rows := w.rows[session := w.rows[session].(cancel := true)])
    case Spawn(session) => w.(children := w.children + {Pair(w.rows[session].job, session)})
    case Exit(child) => w.(children := w.children - {child})
    case KillRow(session) =>
      Moved(w, session, Killed).(children := w.children - {Pair(w.rows[session].job, session)})
    case PersistTerminal(session, written) =>
      Moved(w, session, Recorded).(disk :=
        if written then w.disk.(terminal := w.disk.terminal[session := w.rows[session].job]) else w.disk)
    case MarkDone(session) => Moved(w, session, Done)
    case Release(session) => w.(rows := w.rows - {session})
    case Crash => w.(rows := map[], lock := Free)
  }

  function Next(w: World, step: Step): World {
    if Enabled(w, step) then Apply(w, step) else w
  }

  /** Any interleaving over any number of executor lives; steps not possible at their turn are skipped. */
  function Play(steps: seq<Step>): World {
    if steps == [] then EMPTY else Next(Play(steps[..|steps| - 1]), steps[|steps| - 1])
  }

  // --- What every step keeps. ---

  predicate AbortedJob(disk: Disk, job: Job) {
    || (job in disk.batch && disk.batch[job].cancelled)
    || (job in disk.jobBind && disk.jobBind[job].cancelled)
  }

  ghost predicate DiskFits(disk: Disk) {
    && (forall job :: job in disk.jobBind ==> job !in disk.batch)
    && (forall job :: job in disk.batch ==> Pair(job, disk.batch[job].session) in disk.pairBind)
    && (forall pair :: pair in disk.pairBind ==> disk.pairBind[pair].session == pair.session)
    && (forall job :: job in disk.jobBind && disk.jobBind[job].neverStarted ==> disk.jobBind[job].cancelled)
    && (forall pair :: pair in disk.pairBind && disk.pairBind[pair].neverStarted ==>
          disk.pairBind[pair].cancelled && pair.job in disk.batch)
  }

  /** A started session is bound, and is the current one of its job unless it left a record. */
  predicate Accounted(disk: Disk, pair: Pair) {
    if pair.job in disk.jobBind then
      disk.jobBind[pair.job].session == pair.session && !disk.jobBind[pair.job].neverStarted
    else
      && pair.job in disk.batch && pair in disk.pairBind && !disk.pairBind[pair].neverStarted
      && (disk.batch[pair.job].session == pair.session || pair.session in disk.terminal)
  }

  ghost predicate StartedFits(w: World) {
    && (forall i :: 0 <= i < |w.started| ==> Accounted(w.disk, w.started[i]))
    && (forall i, j :: 0 <= i < j < |w.started| ==> w.started[i] != w.started[j])
  }

  ghost predicate RowsFit(w: World) {
    && (forall s :: s in w.rows ==> Pair(w.rows[s].job, s) in w.started)
    && (forall s :: s in w.rows && (w.rows[s].phase == Active || w.rows[s].phase == Killed) ==> s !in w.disk.terminal)
    && (forall child :: child in w.children ==> child in w.started)
  }

  /** What held when the start was decided still holds at every write on the way to it. */
  predicate LockFits(w: World) {
    match w.lock
    case Free => true
    case Revoke(pair) => pair.job in w.disk.batch ==> w.disk.batch[pair.job].cancelled
    case Bind(req) =>
      && req.session !in w.rows && req.session !in w.disk.terminal && req.job !in w.disk.jobBind
      && (req.job in w.disk.batch ==> req.batched && !w.disk.batch[req.job].cancelled)
      && (req.job in w.disk.batch ==> w.disk.batch[req.job].session in w.disk.terminal)
      && (req.batched ==> Pair(req.job, req.session) !in w.disk.pairBind)
    case Enter(req) =>
      && req.session !in w.rows && req.session !in w.disk.terminal && req.job !in w.disk.jobBind && req.batched
      && (req.job in w.disk.batch ==> w.disk.batch[req.job].session in w.disk.terminal)
      && (req.job in w.disk.batch ==> !w.disk.batch[req.job].cancelled)
      && Pair(req.job, req.session) in w.disk.pairBind
      && w.disk.pairBind[Pair(req.job, req.session)] == Binding(req.session, false, false)
      && Pair(req.job, req.session) !in w.started
    case Launch(req) =>
      && req.session !in w.rows && req.session !in w.disk.terminal
      && Pair(req.job, req.session) !in w.started
      && Accounted(w.disk, Pair(req.job, req.session)) && !AbortedJob(w.disk, req.job)
  }

  ghost predicate Inv(w: World) {
    DiskFits(w.disk) && StartedFits(w) && RowsFit(w) && LockFits(w)
  }

  lemma BeginKeeps(w: World, req: Request, workspaceOk: bool)
    requires Inv(w) && Enabled(w, BeginExecute(req, workspaceOk))
    ensures Inv(Apply(w, BeginExecute(req, workspaceOk)))
  {
  }

  lemma BindingKeeps(w: World)
    requires Inv(w) && Enabled(w, WriteBinding)
    ensures Inv(Apply(w, WriteBinding))
  {
  }

  lemma BatchKeeps(w: World)
    requires Inv(w) && Enabled(w, WriteBatch)
    ensures Inv(Apply(w, WriteBatch))
  {
  }

  lemma RegisterKeeps(w: World)
    requires Inv(w) && Enabled(w, Register)
    ensures Inv(Apply(w, Register))
  {
  }

  lemma BeginAbortKeeps(w: World, pair: Pair)
    requires Inv(w) && Enabled(w, BeginAbort(pair))
    ensures Inv(Apply(w, BeginAbort(pair)))
  {
  }

  lemma CancelKeepsDisk(disk: Disk, pair: Pair)
    requires DiskFits(disk)
    requires pair.job !in disk.batch && pair.job in disk.jobBind ==> disk.jobBind[pair.job].session == pair.session
    ensures DiskFits(BindingCancelled(disk, pair))
  {
    if pair.job in disk.batch {
      assert BindingCancelled(disk, pair).jobBind == disk.jobBind;
    } else {
      assert BindingCancelled(disk, pair).pairBind == disk.pairBind;
    }
  }

  lemma CancelKeepsAccounted(disk: Disk, pair: Pair, p: Pair)
    requires DiskFits(disk) && Accounted(disk, p)
    ensures Accounted(BindingCancelled(disk, pair), p)
  {
  }

  lemma FinishAbortKeeps(w: World)
    requires Inv(w) && Enabled(w, FinishAbort)
    ensures Inv(Apply(w, FinishAbort))
  {
    var pair := w.lock.pair;
    if !AbortConflicts(w.disk, w.rows, pair) {
      CancelKeepsDisk(w.disk, pair);
      forall i | 0 <= i < |w.started|
        ensures Accounted(BindingCancelled(w.disk, pair), w.started[i])
      {
        CancelKeepsAccounted(w.disk, pair, w.started[i]);
      }
      assert BindingCancelled(w.disk, pair).terminal == w.disk.terminal;
    }
  }

  lemma PersistKeeps(w: World, session: Sid, written: bool)
    requires Inv(w) && Enabled(w, PersistTerminal(session, written))
    ensures Inv(Apply(w, PersistTerminal(session, written)))
  {
  }

  lemma RowChangeKeeps(w: World, session: Sid, row: Row, children: set<Pair>)
    requires Inv(w) && session in w.rows && row.job == w.rows[session].job
    requires row.phase == Active || row.phase == Killed ==>
               w.rows[session].phase == Active || w.rows[session].phase == Killed
    requires forall child :: child in children ==> child in w.children || child == Pair(row.job, session)
    ensures Inv(w.(rows := w.rows[session := row], children := children))
  {
  }

  lemma ChildrenKeep(w: World, children: set<Pair>)
    requires Inv(w) && forall child :: child in children ==> child in w.children
    ensures Inv(w.(children := children))
  {
  }

  lemma ReleaseKeeps(w: World, session: Sid)
    requires Inv(w) && Enabled(w, Release(session))
    ensures Inv(w.(rows := w.rows - {session}))
  {
  }

  lemma UnlockKeeps(w: World, rows: map<Sid, Row>)
    requires Inv(w) && (rows == w.rows || rows == map[])
    ensures Inv(w.(rows := rows, lock := Free))
  {
  }

  lemma RowKeeps(w: World, step: Step)
    requires Inv(w) && Enabled(w, step)
    requires step.CancelRow? || step.Spawn? || step.Exit? || step.KillRow? || step.MarkDone? || step.Release?
          || step.Crash? || step.ConstructFails?
    ensures Inv(Apply(w, step))
  {
    match step
    case CancelRow(session) => RowChangeKeeps(w, session, w.rows[session].(cancel := true), w.children);
    case Spawn(session) =>
      var child := Pair(w.rows[session].job, session);
      RowChangeKeeps(w, session, w.rows[session], w.children + {child});
      assert w.rows[session := w.rows[session]] == w.rows;
    case Exit(child) => ChildrenKeep(w, w.children - {child});
    case KillRow(session) =>
      var row := w.rows[session];
      RowChangeKeeps(w, session, row.(phase := Killed), w.children - {Pair(row.job, session)});
    case MarkDone(session) => RowChangeKeeps(w, session, w.rows[session].(phase := Done), w.children);
    case Release(session) => ReleaseKeeps(w, session);
    case Crash => UnlockKeeps(w, map[]);
    case ConstructFails => UnlockKeeps(w, w.rows);
  }

  lemma StepKeeps(w: World, step: Step)
    requires Inv(w) && Enabled(w, step)
    ensures Inv(Apply(w, step))
  {
    match step
    case BeginExecute(req, workspaceOk) => BeginKeeps(w, req, workspaceOk);
    case WriteBinding => BindingKeeps(w);
    case WriteBatch => BatchKeeps(w);
    case Register => RegisterKeeps(w);
    case BeginAbort(pair) => BeginAbortKeeps(w, pair);
    case FinishAbort => FinishAbortKeeps(w);
    case PersistTerminal(session, written) => PersistKeeps(w, session, written);
    case _ => RowKeeps(w, step);
  }

  lemma {:induction false} Always(steps: seq<Step>)
    ensures Inv(Play(steps))
  {
    if steps != [] {
      Always(steps[..|steps| - 1]);
      var w, step := Play(steps[..|steps| - 1]), steps[|steps| - 1];
      if Enabled(w, step) {
        StepKeeps(w, step);
      }
    }
  }

  // --- At most one live child per job. ---

  /** No session of the job is also started in another job. */
  ghost predicate NoReuse(started: seq<Pair>, job: Job) {
    forall i, j :: 0 <= i < |started| && 0 <= j < |started| ==>
      started[i].job == job && started[j].session == started[i].session ==> started[j].job == job
  }

  ghost predicate ChildrenFit(w: World, job: Job) {
    forall child :: child in w.children && child.job == job ==>
      && child.session !in w.disk.terminal
      && (child.session in w.rows ==> w.rows[child.session].job == job && w.rows[child.session].phase == Active)
  }

  lemma RegisterFits(w: World, job: Job)
    requires Inv(w) && ChildrenFit(w, job) && Enabled(w, Register) && NoReuse(Apply(w, Register).started, job)
    ensures ChildrenFit(Apply(w, Register), job)
  {
    var req, next := w.lock.req, Apply(w, Register);
    assert next.started[|w.started|] == Pair(req.job, req.session);
    forall child | child in w.children && child.job == job
      ensures child.session == req.session ==> req.job == job
    {
      var i :| 0 <= i < |w.started| && w.started[i] == child;
      assert next.started[i] == child;
    }
  }

  lemma PersistFits(w: World, session: Sid, written: bool, job: Job)
    requires Inv(w) && ChildrenFit(w, job) && Enabled(w, PersistTerminal(session, written)) && NoReuse(w.started, job)
    ensures ChildrenFit(Apply(w, PersistTerminal(session, written)), job)
  {
  }

  lemma RunFits(w: World, step: Step, job: Job)
    requires Inv(w) && ChildrenFit(w, job) && Enabled(w, step)
    requires step.Spawn? || step.KillRow? || step.CancelRow? || step.MarkDone? || step.Release? || step.Exit?
    ensures ChildrenFit(Apply(w, step), job)
  {
    match step
    case Spawn(_) =>
    case KillRow(_) =>
    case CancelRow(_) =>
    case MarkDone(_) =>
    case Release(_) =>
    case Exit(_) =>
  }

  /** The writes of the registry leave runs, children and terminal records alone. */
  lemma WriteLeaves(w: World, step: Step)
    requires Enabled(w, step)
    requires step.BeginExecute? || step.WriteBinding? || step.WriteBatch? || step.BeginAbort? || step.FinishAbort?
          || step.ConstructFails?
    ensures var next := Apply(w, step);
            next.rows == w.rows && next.children == w.children && next.disk.terminal == w.disk.terminal
  {
  }

  lemma StepFits(w: World, step: Step, job: Job)
    requires Inv(w) && ChildrenFit(w, job) && Enabled(w, step) && NoReuse(Apply(w, step).started, job)
    ensures ChildrenFit(Apply(w, step), job)
  {
    match step
    case Register => RegisterFits(w, job);
    case PersistTerminal(session, written) => PersistFits(w, session, written, job);
    case Crash =>
    case BeginExecute(_, _) => WriteLeaves(w, step);
    case WriteBinding => WriteLeaves(w, step);
    case WriteBatch => WriteLeaves(w, step);
    case BeginAbort(_) => WriteLeaves(w, step);
    case FinishAbort => WriteLeaves(w, step);
    case ConstructFails => WriteLeaves(w, step);
    case _ => RunFits(w, step, job);
  }

  lemma StartedGrows(w: World, step: Step)
    requires Enabled(w, step)
    ensures w.started <= Apply(w, step).started
  {
  }

  lemma {:induction false} ChildrenAlwaysFit(steps: seq<Step>, job: Job)
    requires NoReuse(Play(steps).started, job)
    ensures ChildrenFit(Play(steps), job)
  {
    if steps != [] {
      var w, step := Play(steps[..|steps| - 1]), steps[|steps| - 1];
      Always(steps[..|steps| - 1]);
      if Enabled(w, step) {
        StartedGrows(w, step);
        ChildrenAlwaysFit(steps[..|steps| - 1], job);
        StepFits(w, step, job);
      } else {
        ChildrenAlwaysFit(steps[..|steps| - 1], job);
      }
    }
  }

  /** Over every run, with crashes that spare the children, a job has at most one child alive: always if
      it is not batched, and as long as its session ids are its own if it is. */
  lemma {:induction false} OneChildPerJob(steps: seq<Step>, a: Pair, b: Pair)
    requires a.job in Play(steps).disk.jobBind || NoReuse(Play(steps).started, a.job)
    requires a in Play(steps).children && b in Play(steps).children && a.job == b.job
    ensures a == b
  {
    Always(steps);
    if a.job !in Play(steps).disk.jobBind {
      ChildrenAlwaysFit(steps, a.job);
    }
    assert Accounted(Play(steps).disk, a) && Accounted(Play(steps).disk, b);
  }

  // --- Starts. ---

  /** A session starts exactly when its job runs under the same protocol or none yet, is not aborted and has
      no other session at work, and this session has left no trace: no binding, no run, no record. */
  lemma StartsExactlyWhen(disk: Disk, rows: map<Sid, Row>, req: Request, workspaceOk: bool)
    requires DiskFits(disk)
    ensures Decide(disk, rows, req, workspaceOk) == Start <==>
      && workspaceOk && !AbortedJob(disk, req.job)
      && req.job !in disk.jobBind && (req.batched || req.job !in disk.batch)
      && (req.batched ==> Pair(req.job, req.session) !in disk.pairBind)
      && (req.job in disk.batch ==> disk.batch[req.job].session in disk.terminal)
      && req.session !in rows && req.session !in disk.terminal
      && (forall s :: s in rows && rows[s].job == req.job ==> req.batched && rows[s].phase == Done)
      && (req.job in disk.batch && disk.batch[req.job].session in rows ==>
            rows[disk.batch[req.job].session].phase == Done)
  {
  }

  /** A session is started at most once in a job, across all restarts. */
  lemma {:induction false} StartedOnce(steps: seq<Step>, i: nat, j: nat)
    requires i < j < |Play(steps).started|
    ensures Play(steps).started[i] != Play(steps).started[j]
  {
    Always(steps);
  }

  /** A job that is not batched starts a single session ever: the one its binding names. */
  lemma {:induction false} UnbatchedStartsOne(steps: seq<Step>, a: Pair, b: Pair)
    requires a in Play(steps).started && b in Play(steps).started && a.job == b.job
    requires a.job in Play(steps).disk.jobBind
    ensures a == b && Play(steps).disk.jobBind[a.job].session == a.session
  {
    Always(steps);
  }

  /** And all but the current session of a batched one have left a terminal record. */
  lemma {:induction false} BatchedStartsInTurn(steps: seq<Step>, pair: Pair)
    requires pair in Play(steps).started && pair.job !in Play(steps).disk.jobBind
    requires pair.session !in Play(steps).disk.terminal
    ensures pair.job in Play(steps).disk.batch && Play(steps).disk.batch[pair.job].session == pair.session
  {
    Always(steps);
  }

  // --- Aborts. ---

  predicate Pending(lock: Lock, job: Job) {
    (lock.Bind? || lock.Enter? || lock.Launch?) && lock.req.job == job
  }

  /** The job is aborted, nothing of it is on its way, and what was started of it is known. */
  ghost predicate Sealed(w: World, job: Job, known: seq<Pair>) {
    && AbortedJob(w.disk, job) && !Pending(w.lock, job)
    && forall pair :: pair in w.started && pair.job == job ==> pair in known
  }

  lemma AbortSeals(w: World, job: Job)
    requires Inv(w) && AbortedJob(w.disk, job)
    ensures Sealed(w, job, w.started)
  {
  }

  /** An aborted job is turned away under either protocol. */
  lemma AbortedIsTurnedAway(disk: Disk, rows: map<Sid, Row>, req: Request, workspaceOk: bool)
    requires AbortedJob(disk, req.job)
    ensures Decide(disk, rows, req, workspaceOk) == JobConflict || Decide(disk, rows, req, workspaceOk) == Revoked
  {
  }

  lemma CancelKeepsAborted(disk: Disk, cancelled: Pair, job: Job)
    requires AbortedJob(disk, job)
    ensures AbortedJob(BindingCancelled(disk, cancelled), job)
  {
  }

  lemma WritesKeepAborted(disk: Disk, req: Request, job: Job)
    requires AbortedJob(disk, job) && req.job != job
    ensures AbortedJob(BindingWritten(disk, req), job) && AbortedJob(BatchWritten(disk, req), job)
  {
  }

  /** All but three steps write no binding and no new batch record. */
  lemma OthersLeaveBindings(w: World, step: Step)
    requires Enabled(w, step) && !step.FinishAbort? && !step.WriteBinding? && !step.WriteBatch?
    ensures var disk := Apply(w, step).disk;
            && disk.jobBind == w.disk.jobBind
            && (disk.batch == w.disk.batch || (step.BeginAbort? && disk == BatchCancelled(w.disk, step.pair.job)))
  {
  }

  lemma AbortedStays(w: World, step: Step, job: Job)
    requires Inv(w) && Enabled(w, step) && AbortedJob(w.disk, job) && !Pending(w.lock, job)
    ensures AbortedJob(Apply(w, step).disk, job)
  {
    if step.FinishAbort? {
      CancelKeepsAborted(w.disk, w.lock.pair, job);
    } else if step.WriteBinding? || step.WriteBatch? {
      WritesKeepAborted(w.disk, w.lock.req, job);
    } else {
      OthersLeaveBindings(w, step);
    }
  }

  lemma StepKeepsSealed(w: World, step: Step, job: Job, known: seq<Pair>)
    requires Inv(w) && Enabled(w, step) && Sealed(w, job, known)
    ensures Sealed(Apply(w, step), job, known)
  {
    AbortedStays(w, step, job);
    match step
    case BeginExecute(req, workspaceOk) =>
      if req.job == job {
        AbortedIsTurnedAway(w.disk, w.rows, req, workspaceOk);
      }
    case _ =>
  }

  lemma {:induction false} SealedForGood(steps: seq<Step>, n: nat, job: Job)
    requires n <= |steps| && AbortedJob(Play(steps[..n]).disk, job)
    ensures Sealed(Play(steps), job, Play(steps[..n]).started)
  {
    if n == |steps| {
      assert steps[..n] == steps;
      Always(steps);
      AbortSeals(Play(steps), job);
    } else {
      var front := steps[..|steps| - 1];
      assert front[..n] == steps[..n];
      SealedForGood(front, n, job);
      Always(front);
      if Enabled(Play(front), steps[|steps| - 1]) {
        StepKeepsSealed(Play(front), steps[|steps| - 1], job, Play(steps[..n]).started);
      }
    }
  }

  /** Once an abort of a job is on disk, the job stays aborted and none of its sessions starts any more. */
  lemma {:induction false} AbortIsFinal(steps: seq<Step>, n: nat, pair: Pair)
    requires n <= |steps| && AbortedJob(Play(steps[..n]).disk, pair.job)
    ensures AbortedJob(Play(steps).disk, pair.job)
    ensures pair in Play(steps).started ==> pair in Play(steps[..n]).started
  {
    SealedForGood(steps, n, pair.job);
  }

  predicate MarkedNeverStarted(disk: Disk, pair: Pair) {
    || (pair in disk.pairBind && disk.pairBind[pair].neverStarted)
    || (pair.job in disk.jobBind && disk.jobBind[pair.job].session == pair.session
        && disk.jobBind[pair.job].neverStarted)
  }

  lemma BindingKeepsMark(w: World, pair: Pair)
    requires Inv(w) && Enabled(w, WriteBinding) && MarkedNeverStarted(w.disk, pair)
    ensures MarkedNeverStarted(BindingWritten(w.disk, w.lock.req), pair)
  {
  }

  lemma CancelKeepsMark(disk: Disk, cancelled: Pair, pair: Pair)
    requires MarkedNeverStarted(disk, pair)
    ensures MarkedNeverStarted(BindingCancelled(disk, cancelled), pair)
  {
  }

  lemma MarkStays(w: World, step: Step, pair: Pair)
    requires Inv(w) && Enabled(w, step) && MarkedNeverStarted(w.disk, pair)
    ensures MarkedNeverStarted(Apply(w, step).disk, pair)
  {
    match step
    case WriteBinding => BindingKeepsMark(w, pair);
    case FinishAbort => CancelKeepsMark(w.disk, w.lock.pair, pair);
    case _ =>
  }

  /** A session marked as never started had not started, and never will. */
  lemma {:induction false} NeverStartedNeverStarts(steps: seq<Step>, n: nat, pair: Pair)
    requires n <= |steps| && MarkedNeverStarted(Play(steps[..n]).disk, pair)
    ensures MarkedNeverStarted(Play(steps).disk, pair) && pair !in Play(steps).started
  {
    Always(steps);
    if n == |steps| {
      assert steps[..n] == steps;
    } else {
      var front := steps[..|steps| - 1];
      assert front[..n] == steps[..n];
      NeverStartedNeverStarts(front, n, pair);
      Always(front);
      if Enabled(Play(front), steps[|steps| - 1]) {
        MarkStays(Play(front), steps[|steps| - 1], pair);
      }
    }
    assert pair in Play(steps).started ==> Accounted(Play(steps).disk, pair);
  }

  /** No child now, and no run that could still spawn one. */
  predicate Quenched(w: World, pair: Pair) {
    && pair !in w.children
    && (pair.session in w.rows && w.rows[pair.session].job == pair.job ==> w.rows[pair.session].cancel)
  }

  lemma StepKeepsQuenched(w: World, step: Step, pair: Pair)
    requires Enabled(w, step) && Quenched(w, pair) && !Pending(w.lock, pair.job)
    ensures Quenched(Apply(w, step), pair)
  {
    match step
    case Spawn(_) =>
    case Register =>
    case _ =>
  }

  /** What an abort reports as stopped stays stopped: with the abort on disk and the run, if there is one,
      cancelled, a session without a child has none ever after. */
  lemma {:induction false} StoppedStaysStopped(steps: seq<Step>, n: nat, pair: Pair)
    requires n <= |steps| && AbortedJob(Play(steps[..n]).disk, pair.job) && Quenched(Play(steps[..n]), pair)
    ensures Quenched(Play(steps), pair)
  {
    if n == |steps| {
      assert steps[..n] == steps;
    } else {
      var front := steps[..|steps| - 1];
      assert front[..n] == steps[..n];
      StoppedStaysStopped(front, n, pair);
      SealedForGood(front, n, pair.job);
      if Enabled(Play(front), steps[|steps| - 1]) {
        StepKeepsQuenched(Play(front), steps[|steps| - 1], pair);
      }
    }
  }

  /** The other ground on which an abort reports it: a session never started has neither run nor child. */
  lemma {:induction false} NeverStartedIsStopped(steps: seq<Step>, pair: Pair)
    requires MarkedNeverStarted(Play(steps).disk, pair)
    ensures pair !in Play(steps).children
    ensures pair.session in Play(steps).rows ==> Play(steps).rows[pair.session].job != pair.job
  {
    assert steps[..|steps|] == steps;
    NeverStartedNeverStarts(steps, |steps|, pair);
    Always(steps);
  }

  // --- The methods are their steps, uninterrupted. ---

  /** The writes of an execution, one after the other, leave what NativeSessions.Execute says. */
  lemma ExecuteIsItsSteps(w: World, req: Request)
    requires w.lock == Free && Decide(w.disk, w.rows, req, true) == Start
    ensures var bound := Next(Next(w, BeginExecute(req, true)), WriteBinding);
            Next(if req.batched then Next(bound, WriteBatch) else bound, Register) ==
              w.(disk := BatchWritten(BindingWritten(w.disk, req), req), rows := Registered(w.rows, req),
                 started := w.started + [Pair(req.job, req.session)])
  {
  }

  lemma AbortIsItsSteps(w: World, pair: Pair)
    requires w.lock == Free
    ensures var cancelled := BatchCancelled(w.disk, pair.job);
            Next(Next(w, BeginAbort(pair)), FinishAbort) ==
              w.(disk := if AbortConflicts(cancelled, w.rows, pair) then cancelled
                         else BindingCancelled(cancelled, pair))
  {
  }

  // --- Why session ids must not be reused. ---

  function Executed(w: World, req: Request): World {
    w.(disk := BatchWritten(BindingWritten(w.disk, req), req), rows := Registered(w.rows, req),
       started := w.started + [Pair(req.job, req.session)])
  }

  ghost predicate Reachable(w: World) {
    exists steps :: Play(steps) == w
  }

  lemma ReachNext(w: World, step: Step)
    requires Reachable(w)
    ensures Reachable(Next(w, step))
  {
    var steps :| Play(steps) == w;
    assert (steps + [step])[..|steps|] == steps;
    assert Play(steps + [step]) == Next(w, step);
  }

  lemma ReachExecuted(w: World, req: Request)
    requires Reachable(w) && w.lock == Free && Decide(w.disk, w.rows, req, true) == Start
    ensures Reachable(Executed(w, req))
  {
    ExecuteIsItsSteps(w, req);
    var begun := Next(w, BeginExecute(req, true));
    ReachNext(w, BeginExecute(req, true));
    var bound := Next(begun, WriteBinding);
    ReachNext(begun, WriteBinding);
    ReachNext(bound, WriteBatch);
    ReachNext(if req.batched then Next(bound, WriteBatch) else bound, Register);
  }

  lemma ReachCrashed(w: World)
    requires Reachable(w)
    ensures Reachable(w.(rows := map[], lock := Free))
  {
    ReachNext(w, Crash);
  }

  lemma ReachOrphan(a: Request)
    requires a.batched
    ensures Reachable(Orphaned(a))
  {
    assert Play([]) == EMPTY;
    ReachExecuted(EMPTY, a);
    var w := Executed(EMPTY, a);
    ReachSpawned(w, a.session);
    ReachCrashed(w.(children := w.children + {Pair(a.job, a.session)}));
  }

  lemma ReachFinished(w: World, b: Request)
    requires Reachable(w) && w.lock == Free && b.session in w.rows && w.rows[b.session].phase == Active
    requires w.rows[b.session].job == b.job && Pair(b.job, b.session) !in w.children
    ensures Reachable(w.(rows := w.rows[b.session := w.rows[b.session].(phase := Done)],
                         disk := w.disk.(terminal := w.disk.terminal[b.session := b.job])))
  {
    ReachNext(w, KillRow(b.session));
    var killed := Next(w, KillRow(b.session));
    assert killed.children == w.children;
    ReachNext(killed, PersistTerminal(b.session, true));
    var recorded := Next(killed, PersistTerminal(b.session, true));
    ReachNext(recorded, MarkDone(b.session));
    assert Next(recorded, MarkDone(b.session)).rows == w.rows[b.session := w.rows[b.session].(phase := Done)];
  }

  lemma ReachSpawned(w: World, session: Sid)
    requires Reachable(w) && Enabled(w, Spawn(session))
    ensures Reachable(w.(children := w.children + {Pair(w.rows[session].job, session)}))
  {
    ReachNext(w, Spawn(session));
  }

  /** The first session of a batched job lost in a crash, its child alive. */
  function Orphaned(a: Request): World {
    Executed(EMPTY, a).(rows := map[], children := {Pair(a.job, a.session)})
  }

  /** Another job has used its session id, and left a terminal record. */
  function Overtaken(a: Request, b: Request): World {
    var w := Executed(Orphaned(a), b);
    w.(rows := w.rows[b.session := w.rows[b.session].(phase := Done)],
       disk := w.disk.(terminal := w.disk.terminal[b.session := b.job]))
  }

  lemma ReachOvertaken(a: Request, b: Request)
    requires a.batched && a.job != b.job && a.session == b.session
    ensures Reachable(Overtaken(a, b))
  {
    ReachOrphan(a);
    ReachExecuted(Orphaned(a), b);
    ReachFinished(Executed(Orphaned(a), b), b);
  }

  /** So the job's next session is let in. */
  lemma NextIsLetIn(a: Request, b: Request, c: Request)
    requires a.batched && c.batched
    requires a.job != b.job && a.session == b.session && c.job == a.job && c.session != a.session
    ensures Decide(Overtaken(a, b).disk, Overtaken(a, b).rows, c, true) == Start
  {
  }

  /** The assumption is needed: whenever another job takes over a session id of a batched job, that job
      can have two children at once. */
  lemma ReuseDefeatsIt(a: Request, b: Request, c: Request)
    requires a.batched && c.batched
    requires a.job != b.job && a.session == b.session && c.job == a.job && c.session != a.session
    ensures exists w :: Reachable(w) && Pair(a.job, a.session) in w.children && Pair(c.job, c.session) in w.children
  {
    var overtaken := Overtaken(a, b);
    ReachOvertaken(a, b);
    NextIsLetIn(a, b, c);
    ReachExecuted(overtaken, c);
    var second := Executed(overtaken, c);
    ReachSpawned(second, c.session);
    assert Pair(c.job, c.session) in second.(children := second.children + {Pair(c.job, c.session)}).children;
  }
}
