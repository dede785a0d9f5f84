/** What an execution is answered, and what an abort leaves on disk, spelled out on the files themselves. */
module RegistryAnswers {
  import opened Options
  import opened SessionRegistry

  // --- Every answer to an execution. ---

  /** The job is known under the other protocol. */
  predicate Mixed(disk: Disk, req: Request) {
    if req.batched then req.job in disk.jobBind else req.job in disk.batch
  }

  /** Another session of the job may still be at work, or is the only one the job will ever have. */
  predicate Taken(disk: Disk, rows: map<Sid, Row>, req: Request) {
    if req.batched then
      && req.job in disk.batch && !disk.batch[req.job].cancelled && disk.batch[req.job].session != req.session
      && (disk.batch[req.job].session !in disk.terminal
          || (disk.batch[req.job].session in rows && rows[disk.batch[req.job].session].phase != Done))
    else req.job in disk.jobBind && disk.jobBind[req.job].session != req.session
  }

  predicate Bound(disk: Disk, req: Request) {
    if req.batched then Pair(req.job, req.session) in disk.pairBind else req.job in disk.jobBind
  }

  predicate Cancelled(disk: Disk, req: Request) {
    if req.batched then
      || (req.job in disk.batch && disk.batch[req.job].cancelled)
      || (Pair(req.job, req.session) in disk.pairBind && disk.pairBind[Pair(req.job, req.session)].cancelled)
    else req.job in disk.jobBind && disk.jobBind[req.job].cancelled
  }

  predicate Same(row: Row, req: Request) {
    row.job == req.job && row.model == req.model && row.workspace == req.workspace
  }

  ghost predicate Working(rows: map<Sid, Row>, req: Request) {
    exists s :: s in rows && rows[s].job == req.job && (req.batched ==> rows[s].phase != Done)
  }

  /** When each answer is given. A session that is neither running nor recorded starts only if nothing binds it. */
  lemma AnswersExactlyWhen(disk: Disk, rows: map<Sid, Row>, req: Request, workspaceOk: bool)
    requires DiskFits(disk)
    ensures var answer := Decide(disk, rows, req, workspaceOk);
            var open := !Mixed(disk, req) && !Taken(disk, rows, req);
            var clear := open && !Cancelled(disk, req);
            var running, recorded := req.session in rows, req.session in disk.terminal;
            var unseen := clear && !running && !recorded && !Bound(disk, req);
            && (answer == Revoked <==> open && Cancelled(disk, req))
            && (answer == Existing <==> clear && running && Same(rows[req.session], req))
            && (answer == ExistingTerminal <==> clear && !running && recorded && disk.terminal[req.session] == req.job)
            && (answer == IdentityConflict <==>
                  clear && if running then !Same(rows[req.session], req)
                           else recorded && disk.terminal[req.session] != req.job)
            && (answer == StateUnknown <==> clear && !running && !recorded && Bound(disk, req))
            && (answer == JobConflict <==> !open || (unseen && Working(rows, req)))
            && (answer == WorkspaceInvalid <==> unseen && !Working(rows, req) && !workspaceOk)
            && (answer == Start <==> unseen && !Working(rows, req) && workspaceOk)
  {
    assert Occupied(rows, req) == Working(rows, req);
  }

  /** A repeated execution of a session at work finds that run, unless the session or its job was aborted. */
  lemma {:induction false} RetryFindsTheRun(steps: seq<Step>, req: Request, workspaceOk: bool)
    requires req.session in Play(steps).rows && Same(Play(steps).rows[req.session], req)
    requires Play(steps).rows[req.session].phase == Active || Play(steps).rows[req.session].phase == Killed
    requires req.batched == (req.job !in Play(steps).disk.jobBind)
    ensures var w := Play(steps);
            Decide(w.disk, w.rows, req, workspaceOk) == if Cancelled(w.disk, req) then Revoked else Existing
  {
    Always(steps);
    var w := Play(steps);
    AnswersExactlyWhen(w.disk, w.rows, req, workspaceOk);
    assert Pair(req.job, req.session) in w.started;
    assert Accounted(w.disk, Pair(req.job, req.session));
  }

  /** The moment a session is registered the same request finds it. */
  lemma {:induction false} StartedIsFound(steps: seq<Step>, workspaceOk: bool)
    requires Play(steps).lock.Launch?
    ensures var req, w := Play(steps).lock.req, Next(Play(steps), Register);
            req.session in w.rows && Same(w.rows[req.session], req)
            && Decide(w.disk, w.rows, req, workspaceOk)
               == if Mixed(w.disk, req) then JobConflict else if Cancelled(w.disk, req) then Revoked else Existing
  {
    Always(steps);
    var w := Next(Play(steps), Register);
    RegisterKeeps(Play(steps));
    AnswersExactlyWhen(w.disk, w.rows, Play(steps).lock.req, workspaceOk);
  }

  // --- What an abort leaves. ---

  /** The pair is not the caller's: the session runs for another job, or the job is bound to another session. */
  predicate Foreign(disk: Disk, rows: map<Sid, Row>, pair: Pair) {
    || (pair.session in rows && rows[pair.session].job != pair.job)
    || (pair.job in disk.jobBind && disk.jobBind[pair.job].session != pair.session)
  }

  /** The binding of an aborted pair: cancelled, and marked as never started if there was none. */
  function Marked(disk: Disk, pair: Pair): Binding {
    Binding(pair.session, true,
            if pair.job in disk.batch then pair in disk.pairBind ==> disk.pairBind[pair].neverStarted
            else pair.job in disk.jobBind ==> disk.jobBind[pair.job].neverStarted)
  }

  /** What is on disk when an abort is through, in any reachable state: unless the pair is foreign its own binding
      is cancelled, with the job's batch record where there is one, and nothing else has changed. */
  lemma {:induction false} AbortLeaves(steps: seq<Step>, pair: Pair)
    requires Play(steps).lock == Free
    ensures var w, next := Play(steps), Play(steps + [BeginAbort(pair), FinishAbort]);
            var batched, foreign := pair.job in w.disk.batch, Foreign(w.disk, w.rows, pair);
            && next == w.(disk := next.disk) && next.disk.terminal == w.disk.terminal
            && next.disk.batch
               == (if batched then w.disk.batch[pair.job := Batch(w.disk.batch[pair.job].session, true)]
                   else w.disk.batch)
            && next.disk.pairBind
               == (if batched && !foreign then w.disk.pairBind[pair := Marked(w.disk, pair)] else w.disk.pairBind)
            && next.disk.jobBind
               == (if !batched && !foreign then w.disk.jobBind[pair.job := Marked(w.disk, pair)] else w.disk.jobBind)
  {
    Always(steps);
    var w := Play(steps);
    assert (steps + [BeginAbort(pair), FinishAbort])[..|steps| + 1] == steps + [BeginAbort(pair)];
    assert (steps + [BeginAbort(pair)])[..|steps|] == steps;
    var begun := Next(w, BeginAbort(pair));
    assert Play(steps + [BeginAbort(pair), FinishAbort]) == Next(begun, FinishAbort);
  }

  /** An abort in any interleaving: when it ends, the pair was foreign and its job not batched, or the job is
      aborted, and every later execution of it, in any continuation, is turned away. */
  lemma {:induction false} AbortEndsInRefusal(steps: seq<Step>, more: seq<Step>, req: Request, workspaceOk: bool)
    requires Play(steps).lock.Revoke? && req.job == Play(steps).lock.pair.job
    requires req.job in Play(steps).disk.batch || !Foreign(Play(steps).disk, Play(steps).rows, Play(steps).lock.pair)
    ensures var w := Play(steps + [FinishAbort] + more);
            var answer := Decide(w.disk, w.rows, req, workspaceOk);
            AbortedJob(w.disk, req.job) && (answer == Revoked || answer == JobConflict)
  {
    Always(steps);
    var ended := steps + [FinishAbort];
    assert ended[..|steps|] == steps && Play(ended) == Next(Play(steps), FinishAbort);
    var pair := Play(steps).lock.pair;
    assert AbortedJob(Play(ended).disk, pair.job);
    assert (ended + more)[..|ended|] == ended;
    AbortIsFinal(ended + more, |ended|, pair);
    var w := Play(ended + more);
    AbortedIsTurnedAway(w.disk, w.rows, req, workspaceOk);
  }

  /** A foreign pair of a job that is not batched leaves everything as it was. */
  lemma {:induction false} ForeignAbortDoesNothing(steps: seq<Step>)
    requires Play(steps).lock.Revoke? && Play(steps).lock.pair.job !in Play(steps).disk.batch
    requires Foreign(Play(steps).disk, Play(steps).rows, Play(steps).lock.pair)
    ensures Play(steps + [FinishAbort]) == Play(steps).(lock := Free)
  {
    assert (steps + [FinishAbort])[..|steps|] == steps;
  }
}
