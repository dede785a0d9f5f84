/** What the terminal record says in every run, and exactly when a result can be released through it. */
module SessionReleases {
  import opened Options
  import opened SessionLifecycle
  import opened SessionRuns
  import D = EventDelivery

  // --- What the record says. ---

  /** The event stream is through: nothing is queued, nothing will be, and the cursor stays. */
  ghost predicate Through(net: D.World) {
    && D.Backlog(!net.recovered, net.emitted, net.reporter.spool.cursor) == []
    && (net.up ==> net.reporter.closed)
  }

  ghost predicate RecordIsTrue(s: Session) {
    s.disk.record.Some? ==>
      var record := s.disk.record.value;
      && (record.available <==> s.disk.saved != Absent)
      && (Alive(s) ==> record.digest == s.row.digest && record.final == s.row.final
                       && (Terminal(record.status) ==> record.status == s.row.status))
      && (record.streamClosed ==> record.acked == s.net.reporter.spool.cursor && Through(s.net))
  }

  lemma ThroughStays(net: D.World, step: D.Step)
    requires D.Inv(net) && Through(net)
    ensures Through(D.Next(net, step))
    ensures D.Next(net, step).reporter.spool.cursor == net.reporter.spool.cursor
  {
    if step.Recover? {
      D.BacklogLoses(net.emitted, net.reporter.spool.cursor);
    }
  }

  lemma NetKeepsTrue(s: Session, step: D.Step)
    requires D.Inv(s.net) && RecordIsTrue(s)
    ensures RecordIsTrue(s.(net := D.Next(s.net, step)))
  {
    if s.disk.record.Some? && s.disk.record.value.streamClosed {
      ThroughStays(s.net, step);
    }
    NetLeavesTrue(s, D.Next(s.net, step));
  }

  lemma NetLeavesTrue(s: Session, net: D.World)
    requires RecordIsTrue(s)
    requires s.disk.record.Some? && s.disk.record.value.streamClosed ==>
               Through(net) && net.reporter.spool.cursor == s.net.reporter.spool.cursor
    ensures RecordIsTrue(s.(net := net))
  {
  }

  lemma ClosedIsThrough(net: D.World)
    requires D.Inv(net) && net.up && net.reporter.closed && net.reporter.queue == []
    ensures Through(net) && net.reporter.acked == net.reporter.spool.cursor
  {
  }

  /** A cancelled run that has not ended yet says so. */
  predicate CancelShows(s: Session) {
    Alive(s) && s.row.cancel && !Terminal(s.row.status) ==> s.row.status == Aborting
  }

  lemma PosterKeepsTrue(hash: string -> string, s: Session, expired: bool)
    requires D.Inv(s.net) && RecordIsTrue(s) && Enabled(s, PosterEnds(expired))
    ensures RecordIsTrue(Apply(hash, s, PosterEnds(expired)))
  {
    if s.net.reporter.closed && s.net.reporter.queue == [] {
      ClosedIsThrough(s.net);
    }
  }

  lemma WriteIsTrue(hash: string -> string, s: Session)
    requires D.Inv(s.net) && NetFits(s) && Enabled(s, WriteRecord)
    ensures RecordIsTrue(Apply(hash, s, WriteRecord))
  {
    if StreamClosed(s.net.reporter, s.posting) {
      ClosedIsThrough(s.net);
    }
  }

  predicate OnNet(step: Step) {
    step.Net? || step.Progress? || step.CloseReporter? || step.Crash? || step.Restart?
  }

  /** The steps by which the network moves. */
  lemma NetStepKeepsTrue(hash: string -> string, s: Session, step: Step)
    requires D.Inv(s.net) && RecordIsTrue(s) && Enabled(s, step) && OnNet(step)
    ensures RecordIsTrue(Apply(hash, s, step))
  {
    match step
    case Net(net) => NetKeepsTrue(s, net);
    case Progress(text, breaks) => NetKeepsTrue(s, D.Emit(D.Note(text), breaks));
    case CloseReporter => NetKeepsTrue(s, D.Close);
    case Crash => NetKeepsTrue(s, D.Crash);
    case Restart => NetKeepsTrue(s, D.Recover);
  }

  lemma NoRecordYet(hash: string -> string, s: Session, step: Step)
    requires s.disk.record == None && Enabled(s, step) && !step.WriteRecord?
    ensures Apply(hash, s, step).disk.record == None
  {
    match step
    case Net(_) =>
    case Progress(_, _) =>
    case Advance =>
    case Compute(_) =>
    case Save =>
    case Announce(_) =>
    case Conclude =>
    case Raise(_) =>
    case Excuse(_) =>
    case Settle =>
    case Escape =>
    case Kill =>
    case CloseReporter =>
    case TestResult =>
    case TestFile =>
    case Capture =>
    case ReplaceFile =>
    case PersistFails =>
    case Finish =>
    case Forget =>
    case PosterEnds(_) =>
    case Cancel =>
    case Acknowledge(_, _) =>
    case AcknowledgeRecord(_, _) =>
    case Crash =>
    case Restart =>
  }

  predicate Late(step: Step) {
    step.Finish? || step.Forget? || step.Cancel? || step.Acknowledge? || step.AcknowledgeRecord?
  }

  /** Once there is a record the run has only these steps left. */
  lemma OnlyLateSteps(s: Session, step: Step)
    requires Enabled(s, step) && !OnNet(step) && !step.PosterEnds?
    requires s.phase == Recorded || s.phase == Finished || s.phase == Gone
    ensures Late(step)
  {
  }

  lemma LateKeepsTrue(hash: string -> string, s: Session, step: Step)
    requires RecordIsTrue(s) && Enabled(s, step) && Late(step)
    ensures RecordIsTrue(Apply(hash, s, step))
  {
    match step
    case Finish =>
    case Forget =>
    case Cancel =>
    case Acknowledge(_, _) =>
    case AcknowledgeRecord(_, _) =>
  }

  lemma RestKeepsTrue(hash: string -> string, s: Session, step: Step)
    requires RecordIsTrue(s) && Enabled(s, step) && !OnNet(step) && !step.WriteRecord? && !step.PosterEnds?
    requires s.disk.record.Some? ==> s.phase == Recorded || s.phase == Finished || s.phase == Gone
    ensures RecordIsTrue(Apply(hash, s, step))
  {
    if s.disk.record.None? {
      NoRecordYet(hash, s, step);
    } else {
      OnlyLateSteps(s, step);
      LateKeepsTrue(hash, s, step);
    }
  }

  /** Of the invariant of the lifecycle, what is needed here. */
  ghost predicate Sane(s: Session) {
    && D.Inv(s.net) && NetFits(s)
    && (s.disk.record.Some? ==> s.phase == Recorded || s.phase == Finished || s.phase == Gone)
    && (s.phase.Excused? ==> Terminal(s.phase.end))
  }

  lemma InvIsSane(hash: string -> string, s: Session)
    requires Inv(hash, s)
    ensures Sane(s)
  {
    InvFits(hash, s);
  }

  lemma StepKeepsTrue(hash: string -> string, s: Session, step: Step)
    requires Sane(s) && RecordIsTrue(s) && Enabled(s, step)
    ensures RecordIsTrue(Apply(hash, s, step))
  {
    if step.WriteRecord? {
      WriteIsTrue(hash, s);
    } else if step.PosterEnds? {
      PosterKeepsTrue(hash, s, step.expired);
    } else if OnNet(step) {
      NetStepKeepsTrue(hash, s, step);
    } else {
      RestKeepsTrue(hash, s, step);
    }
  }

  predicate SetsStatus(step: Step) {
    step.Advance? || step.Conclude? || step.Settle? || step.PersistFails? || step.Cancel?
  }

  lemma OthersLeaveStatus(hash: string -> string, s: Session, step: Step)
    requires Enabled(s, step) && !SetsStatus(step)
    ensures Apply(hash, s, step).row.status == s.row.status && Apply(hash, s, step).row.cancel == s.row.cancel
    ensures Alive(Apply(hash, s, step)) ==> Alive(s)
  {
    match step
    case Net(_) =>
    case Progress(_, _) =>
    case Compute(_) =>
    case Save =>
    case Announce(_) =>
    case Raise(_) =>
    case Excuse(_) =>
    case Escape =>
    case Kill =>
    case CloseReporter =>
    case TestResult =>
    case TestFile =>
    case Capture =>
    case ReplaceFile =>
    case WriteRecord =>
    case Finish =>
    case Forget =>
    case PosterEnds(_) =>
    case Acknowledge(_, _) =>
    case AcknowledgeRecord(_, _) =>
    case Crash =>
    case Restart =>
  }

  lemma CancelStillShows(hash: string -> string, s: Session, step: Step)
    requires CancelShows(s) && Enabled(s, step) && (s.phase.Excused? ==> Terminal(s.phase.end))
    ensures CancelShows(Apply(hash, s, step))
  {
    if SetsStatus(step) {
      match step
      case Advance =>
      case Conclude =>
      case Settle =>
      case PersistFails =>
      case Cancel =>
    } else {
      OthersLeaveStatus(hash, s, step);
    }
  }

  /** While the run is known the record follows the posting thread. */
  predicate StreamIsTrue(s: Session) {
    Alive(s) && s.disk.record.Some? ==>
      && s.disk.record.value.streamClosed == StreamClosed(s.net.reporter, s.posting)
      && (!s.posting ==> s.disk.record.value.acked == s.net.reporter.acked)
  }

  lemma NetKeepsStream(hash: string -> string, s: Session, step: D.Step)
    requires Sane(s) && StreamIsTrue(s) && Enabled(s, Net(step))
    ensures StreamIsTrue(Apply(hash, s, Net(step)))
  {
    match step
    case Take =>
    case Ack =>
    case Lost =>
    case Deliver(_, _, _) =>
    case Delete =>
    case _ =>
  }

  lemma OnNetKeepsStream(hash: string -> string, s: Session, step: Step)
    requires Sane(s) && StreamIsTrue(s) && Enabled(s, step) && OnNet(step)
    ensures StreamIsTrue(Apply(hash, s, step))
  {
    match step
    case Net(net) => NetKeepsStream(hash, s, net);
    case Progress(_, _) =>
    case CloseReporter =>
    case Crash =>
    case Restart =>
  }

  lemma LateKeepsStream(hash: string -> string, s: Session, step: Step)
    requires StreamIsTrue(s) && Enabled(s, step) && Late(step)
    ensures StreamIsTrue(Apply(hash, s, step))
  {
    match step
    case Finish =>
    case Forget =>
    case Cancel =>
    case Acknowledge(_, _) =>
    case AcknowledgeRecord(_, _) =>
  }

  lemma StepKeepsStream(hash: string -> string, s: Session, step: Step)
    requires Sane(s) && StreamIsTrue(s) && Enabled(s, step)
    ensures StreamIsTrue(Apply(hash, s, step))
  {
    if OnNet(step) {
      OnNetKeepsStream(hash, s, step);
    } else if step.PosterEnds? || step.WriteRecord? {
    } else if s.disk.record.None? {
      NoRecordYet(hash, s, step);
    } else {
      OnlyLateSteps(s, step);
      LateKeepsStream(hash, s, step);
    }
  }

  lemma {:induction false} AlwaysFollows(hash: string -> string, steps: seq<Step>)
    ensures StreamIsTrue(Play(hash, steps))
  {
    if steps != [] {
      var s, step := Play(hash, steps[..|steps| - 1]), steps[|steps| - 1];
      Always(hash, steps[..|steps| - 1]);
      AlwaysFollows(hash, steps[..|steps| - 1]);
      if Enabled(s, step) {
        InvIsSane(hash, s);
        StepKeepsStream(hash, s, step);
      }
    }
  }

  /** While the run is known the record says that its stream is closed exactly if its reporter is, the posting thread
      is gone and nothing was left to post, and then how far the server has acknowledged. */
  lemma {:induction false} RecordFollowsTheStream(hash: string -> string, steps: seq<Step>)
    requires Play(hash, steps).phase != Gone && Play(hash, steps).disk.record.Some?
    ensures var s := Play(hash, steps);
            var record := s.disk.record.value;
            && (record.streamClosed <==> s.net.reporter.closed && !s.posting && s.net.reporter.queue == [])
            && (!s.posting ==> record.acked == s.net.reporter.acked)
  {
    AlwaysFollows(hash, steps);
  }

  lemma {:induction false} AlwaysTrue(hash: string -> string, steps: seq<Step>)
    ensures RecordIsTrue(Play(hash, steps)) && CancelShows(Play(hash, steps))
  {
    if steps != [] {
      var s, step := Play(hash, steps[..|steps| - 1]), steps[|steps| - 1];
      Always(hash, steps[..|steps| - 1]);
      AlwaysTrue(hash, steps[..|steps| - 1]);
      if Enabled(s, step) {
        InvIsSane(hash, s);
        StepKeepsTrue(hash, s, step);
        CancelStillShows(hash, s, step);
      }
    }
  }

  /** In every run the record says that a result is available exactly if its file is there, and, while the run is
      known, what memory says; a run that was cancelled and has not ended says that it is aborting. */
  lemma {:induction false} RecordSaysWhatIsThere(hash: string -> string, steps: seq<Step>)
    ensures var s := Play(hash, steps);
            && (s.disk.record.Some? ==>
                  var record := s.disk.record.value;
                  && (record.available <==> s.disk.saved != Absent)
                  && (s.phase != Gone ==> record.digest == s.row.digest && record.final == s.row.final
                                          && (Terminal(record.status) ==> record.status == s.row.status)))
            && (s.phase != Gone && s.row.cancel && !Terminal(s.row.status) ==> s.row.status == Aborting)
  {
    AlwaysTrue(hash, steps);
  }

  /** The status in the record and the last event name each other, word by word. */
  lemma {:induction false} LastEventNamesStatus(hash: string -> string, steps: seq<Step>)
    requires Play(hash, steps).disk.record.Some? && !Play(hash, steps).escaped
    ensures var s := Play(hash, steps);
            && s.net.emitted != []
            && var status, last := s.disk.record.value.status, s.net.emitted[|s.net.emitted| - 1].body;
               && (status == Completed <==> last.Completed?)
               && (status == Aborted <==> last == D.Failed("aborted"))
               && (status == Unknown <==> last == D.Failed("unknown"))
               && (status == Failed <==> last == D.Failed("failed"))
  {
    StatusMatchesLastEvent(hash, steps);
    AlwaysFits(hash, steps);
    assert "aborted" != "unknown" && "aborted" != "failed" && "unknown" != "failed";
  }

  lemma DoneIgnoresCancel(hash: string -> string, s: Session)
    requires s.phase == Finished && s.row.done
    ensures Next(hash, s, Cancel) == s
  {
  }

  lemma {:induction false} FinishedIsDone(hash: string -> string, steps: seq<Step>)
    requires Play(hash, steps).phase == Finished
    ensures Play(hash, steps).row.done
  {
    AlwaysFits(hash, steps);
  }

  /** A cancellation that comes after everything is done changes nothing. */
  lemma {:induction false} DoneIsNotCancelled(hash: string -> string, steps: seq<Step>)
    requires Play(hash, steps).phase == Finished
    ensures Next(hash, Play(hash, steps), Cancel) == Play(hash, steps)
  {
    FinishedIsDone(hash, steps);
    DoneIgnoresCancel(hash, Play(hash, steps));
  }

  // --- Releases. ---

  lemma ThroughUpTo(net: D.World)
    requires D.Inv(net) && Through(net) && !D.LastBreaks(net.emitted)
    ensures net.reporter.spool.cursor >= |net.emitted|
  {
    if net.reporter.spool.cursor < |net.emitted| {
      D.LastOfBacklog(!net.recovered, net.emitted, net.reporter.spool.cursor);
    }
  }

  lemma RecordReleases(s: Session, record: Record, digest: Option<string>, final: Option<nat>)
    requires s.disk.record == Some(record) && !s.listed && record.streamClosed
    requires record.acked == s.net.reporter.spool.cursor <= |s.net.emitted|
    requires record.final.Some? ==> record.final.value == |s.net.emitted|
    ensures Enabled(s, AcknowledgeRecord(digest, final)) <==>
              && digest == record.digest && final == record.final
              && (final.Some? ==> s.net.reporter.spool.cursor == |s.net.emitted|)
  {
  }

  lemma ReleasedByRecord(hash: string -> string, s: Session, digest: Option<string>, final: Option<nat>)
    requires Enabled(s, AcknowledgeRecord(digest, final))
    ensures var next := Next(hash, s, AcknowledgeRecord(digest, final));
            next.released && next.disk.saved == Absent && next.disk.record.Some? && !next.disk.record.value.available
  {
  }

  lemma {:induction false} RecordFacts(hash: string -> string, steps: seq<Step>)
    requires Play(hash, steps).disk.record.Some? && Play(hash, steps).disk.record.value.streamClosed
    ensures var s := Play(hash, steps);
            var record, cursor := s.disk.record.value, s.net.reporter.spool.cursor;
            && record.acked == cursor <= |s.net.emitted|
            && (record.final.Some? ==> record.final.value == |s.net.emitted|)
            && (Announces(EndingOf(s.net.emitted)) ==> record.digest == Some(EndingOf(s.net.emitted).digest))
            && (!D.LastBreaks(s.net.emitted) ==> cursor == |s.net.emitted|)
  {
    AlwaysTrue(hash, steps);
    AlwaysFits(hash, steps);
    if !D.LastBreaks(Play(hash, steps).net.emitted) {
      ThroughUpTo(Play(hash, steps).net);
    }
  }

  /** Through the record of a session whose stream is closed a result is released exactly to the digest and the number
      in it, and, where there is a number, if the cursor has reached the last event, which it has unless that
      event's line is broken. */
  lemma {:induction false} RecordReleasesExactlyWhen(
      hash: string -> string, steps: seq<Step>, digest: Option<string>, final: Option<nat>)
    requires !Play(hash, steps).listed && Play(hash, steps).disk.record.Some?
    requires Play(hash, steps).disk.record.value.streamClosed
    ensures var s := Play(hash, steps);
            var record, cursor := s.disk.record.value, s.net.reporter.spool.cursor;
            && (Enabled(s, AcknowledgeRecord(digest, final)) <==>
                  digest == record.digest && final == record.final && (final.Some? ==> cursor == |s.net.emitted|))
            && (record.final.Some? ==> record.final.value == |s.net.emitted|)
            && (Announces(EndingOf(s.net.emitted)) ==> record.digest == Some(EndingOf(s.net.emitted).digest))
            && (!D.LastBreaks(s.net.emitted) ==> cursor == |s.net.emitted|)
    ensures var s := Play(hash, steps);
            Enabled(s, AcknowledgeRecord(digest, final)) ==>
              var next := Next(hash, s, AcknowledgeRecord(digest, final));
              next.released && next.disk.saved == Absent
  {
    RecordFacts(hash, steps);
    RecordReleases(Play(hash, steps), Play(hash, steps).disk.record.value, digest, final);
    if Enabled(Play(hash, steps), AcknowledgeRecord(digest, final)) {
      ReleasedByRecord(hash, Play(hash, steps), digest, final);
    }
  }

  lemma LiveReleases(s: Session, digest: Option<string>, final: Option<nat>)
    requires D.Inv(s.net) && s.phase != Gone && s.listed && s.net.up && !s.net.recovered
    requires !s.posting && s.net.reporter.queue == [] && (s.row.final.Some? ==> s.row.final.value <= |s.net.emitted|)
    ensures Enabled(s, Acknowledge(digest, final)) <==>
              Terminal(s.row.status) && s.net.reporter.closed && digest == s.row.digest && final == s.row.final
  {
    D.WholeBacklog(s.net.emitted, s.net.reporter.spool.cursor);
  }

  lemma ReleasedLive(hash: string -> string, s: Session, digest: Option<string>, final: Option<nat>)
    requires Enabled(s, Acknowledge(digest, final))
    ensures var next := Next(hash, s, Acknowledge(digest, final));
            next.released && next.disk.saved == Absent && next.row.result == None
  {
  }

  lemma {:induction false} LiveFacts(hash: string -> string, steps: seq<Step>)
    requires Play(hash, steps).phase != Gone
    ensures var s := Play(hash, steps);
            && D.Inv(s.net) && s.net.up && !s.net.recovered
            && (s.row.final.Some? ==> s.row.final.value <= |s.net.emitted|)
  {
    AlwaysFits(hash, steps);
  }

  /** A session still listed is released exactly to its own digest and number, once its status is terminal, its
      reporter closed, and the posting thread gone with nothing left to post. */
  lemma {:induction false} LiveReleasesExactlyWhen(
      hash: string -> string, steps: seq<Step>, digest: Option<string>, final: Option<nat>)
    requires Play(hash, steps).phase != Gone && Play(hash, steps).listed
    requires !Play(hash, steps).posting && Play(hash, steps).net.reporter.queue == []
    ensures var s := Play(hash, steps);
            Enabled(s, Acknowledge(digest, final)) <==>
              Terminal(s.row.status) && s.net.reporter.closed && digest == s.row.digest && final == s.row.final
    ensures var s := Play(hash, steps);
            Enabled(s, Acknowledge(digest, final)) ==>
              var next := Next(hash, s, Acknowledge(digest, final));
              next.released && next.disk.saved == Absent && next.row.result == None
  {
    LiveFacts(hash, steps);
    LiveReleases(Play(hash, steps), digest, final);
    if Enabled(Play(hash, steps), Acknowledge(digest, final)) {
      ReleasedLive(hash, Play(hash, steps), digest, final);
    }
  }

  /** What the posting thread leaves when it ends with nothing left to post: the stream is closed for good. */
  lemma {:induction false} ClosedForGood(hash: string -> string, steps: seq<Step>, n: nat, expired: bool)
    requires n < |steps| && steps[n] == PosterEnds(expired) && Enabled(Play(hash, steps[..n]), steps[n])
    requires Play(hash, steps[..n]).net.reporter.closed && Play(hash, steps[..n]).net.reporter.queue == []
    requires Play(hash, steps[..n]).disk.record.Some?
    ensures Play(hash, steps).disk.record.Some? && Play(hash, steps).disk.record.value.streamClosed
    decreases |steps|
  {
    var front, last := steps[..|steps| - 1], steps[|steps| - 1];
    if n == |front| {
      assert steps[..n] == front;
    } else {
      assert front[..n] == steps[..n] && front[n] == steps[n];
      ClosedForGood(hash, front, n, expired);
      var s := Play(hash, front);
      Always(hash, front);
      InvIsSane(hash, s);
      AlwaysTrue(hash, front);
      if Enabled(s, last) {
        ClosedStays(hash, s, last);
      }
    }
  }

  lemma PosterStaysClosed(hash: string -> string, s: Session, expired: bool)
    requires D.Inv(s.net) && RecordIsTrue(s) && Enabled(s, PosterEnds(expired))
    requires s.disk.record.Some? && s.disk.record.value.streamClosed
    ensures var next := Apply(hash, s, PosterEnds(expired));
            next.disk.record.Some? && next.disk.record.value.streamClosed
  {
  }

  lemma LateStaysClosed(hash: string -> string, s: Session, step: Step)
    requires Enabled(s, step) && s.disk.record.Some? && s.disk.record.value.streamClosed
    requires Late(step) || OnNet(step)
    ensures Apply(hash, s, step).disk.record.Some? && Apply(hash, s, step).disk.record.value.streamClosed
  {
    match step
    case Finish =>
    case Forget =>
    case Cancel =>
    case Acknowledge(_, _) =>
    case AcknowledgeRecord(_, _) =>
    case Net(_) =>
    case Progress(_, _) =>
    case CloseReporter =>
    case Crash =>
    case Restart =>
  }

  lemma ClosedStays(hash: string -> string, s: Session, step: Step)
    requires Sane(s) && RecordIsTrue(s) && Enabled(s, step)
    requires s.disk.record.Some? && s.disk.record.value.streamClosed
    ensures Apply(hash, s, step).disk.record.Some? && Apply(hash, s, step).disk.record.value.streamClosed
  {
    if step.PosterEnds? {
      PosterStaysClosed(hash, s, step.expired);
    } else if !OnNet(step) {
      OnlyLateSteps(s, step);
      LateStaysClosed(hash, s, step);
    } else {
      LateStaysClosed(hash, s, step);
    }
  }

  /** So once the posting thread has ended with nothing left to post and the record written, and the session is known
      by its record only, the announced digest and the final number release it, unless its last line was broken. */
  lemma {:induction false} DeliveredCanBeReleased(hash: string -> string, steps: seq<Step>, n: nat, expired: bool)
    requires n < |steps| && steps[n] == PosterEnds(expired) && Enabled(Play(hash, steps[..n]), steps[n])
    requires Play(hash, steps[..n]).net.reporter.closed && Play(hash, steps[..n]).net.reporter.queue == []
    requires Play(hash, steps[..n]).disk.record.Some?
    requires !Play(hash, steps).listed && Announces(EndingOf(Play(hash, steps).net.emitted))
    requires !D.LastBreaks(Play(hash, steps).net.emitted)
    ensures var s := Play(hash, steps);
            var digest := EndingOf(s.net.emitted).digest;
            && Enabled(s, AcknowledgeRecord(Some(digest), Some(|s.net.emitted|)))
            && Next(hash, s, AcknowledgeRecord(Some(digest), Some(|s.net.emitted|))).disk.saved == Absent
  {
    var s := Play(hash, steps);
    var digest := EndingOf(s.net.emitted).digest;
    ClosedForGood(hash, steps, n, expired);
    AnnouncedHasFinal(hash, steps);
    RecordReleasesExactlyWhen(hash, steps, Some(digest), Some(|s.net.emitted|));
  }

  lemma {:induction false} AnnouncedHasFinal(hash: string -> string, steps: seq<Step>)
    requires Play(hash, steps).disk.record.Some? && Announces(EndingOf(Play(hash, steps).net.emitted))
    ensures Play(hash, steps).disk.record.value.final == Some(|Play(hash, steps).net.emitted|)
  {
    AlwaysFits(hash, steps);
  }

  // --- Both happen. ---

  /** A run that ends well is recorded, then the executor dies and comes back. */
  function Returned(s: Session): Session {
    var row := s.row.(status := Completed);
    var net := D.Next(s.net, D.Close);
    var record := RecordOf(row, s.disk, net.reporter, s.posting);
    s.(phase := Gone, row := row.(result := None), disk := s.disk.(record := Some(record)), listed := false,
       net := D.Next(D.Next(net, D.Crash), D.Recover), posting := true)
  }

  lemma ReachKeptAlready(hash: string -> string, s: Session)
    requires Reachable(hash, s) && s.phase == Closed && s.row.result.Some? && s.disk.saved != Absent
    ensures Reachable(hash, s.(phase := KeptResult))
  {
    ReachTested(hash, s);
    ReachNext(hash, s.(phase := Tested), TestFile);
  }

  lemma ReachShut(hash: string -> string, s: Session)
    requires Reachable(hash, s) && s.phase == Announced && !s.row.cancel && s.net.up
    ensures Reachable(hash, s.(phase := Closed, row := s.row.(status := Completed), net := D.Next(s.net, D.Close)))
  {
    ReachNext(hash, s, Conclude);
    var left := s.(phase := Leaving, row := s.row.(status := Completed));
    ReachKilled(hash, left);
    ReachClosed(hash, left.(phase := Killed));
  }

  function Shut(s: Session): Session {
    s.(phase := Closed, row := s.row.(status := Completed), net := D.Next(s.net, D.Close))
  }

  lemma CloseIs(net: D.World)
    requires net.up
    ensures D.Next(net, D.Close) == net.(reporter := net.reporter.(closed := true))
  {
  }

  lemma ReachRecordedShut(hash: string -> string, s: Session)
    requires Reachable(hash, s) && s.phase == Announced && !s.row.cancel && s.net.up
    requires s.row.result.Some? && s.disk.saved != Absent
    ensures var record := RecordOf(Shut(s).row, s.disk, Shut(s).net.reporter, s.posting);
            Reachable(hash, Shut(s).(phase := Recorded, row := Shut(s).row.(result := None),
                                     disk := s.disk.(record := Some(record))))
  {
    ReachShut(hash, s);
    ReachKeptAlready(hash, Shut(s));
    ReachRecorded(hash, Shut(s).(phase := KeptResult));
  }

  lemma CrashIs(net: D.World)
    requires net.up && net.reporter.spool.present
    ensures !D.Next(net, D.Crash).up && D.Next(net, D.Crash).reporter.spool.present
  {
  }

  lemma ReachReturned(hash: string -> string, s: Session)
    requires Reachable(hash, s) && s.phase == Announced && !s.row.cancel && s.net.up && s.net.reporter.spool.present
    requires s.row.result.Some? && s.disk.saved != Absent
    ensures Reachable(hash, Returned(s))
  {
    ReachRecordedShut(hash, s);
    CloseIs(s.net);
    CrashIs(Shut(s).net);
    var record := RecordOf(Shut(s).row, s.disk, Shut(s).net.reporter, s.posting);
    var recorded := Shut(s).(phase := Recorded, row := Shut(s).row.(result := None),
                             disk := s.disk.(record := Some(record)));
    ReachCrashed(hash, recorded);
    ReachRestarted(hash, recorded.(net := D.Next(Shut(s).net, D.Crash), phase := Gone, listed := false,
                                   posting := false));
  }

  /** And its posting thread has found nothing to post. */
  function Waiting(s: Session): Session {
    Returned(s).(posting := false, disk := Amended(Returned(s).disk, Returned(s).net.reporter))
  }

  lemma ReturnedNet(s: Session)
    requires D.Numbered(s.net.emitted) && s.net.up && s.net.reporter.spool.present
    requires s.net.reporter.spool.lines == s.net.emitted
    ensures var net, cursor := Returned(s).net, s.net.reporter.spool.cursor;
            && net.up && net.batch == [] && net.store == s.net.store && net.emitted == s.net.emitted
            && net.reporter.closed && net.reporter.acked == cursor
            && net.reporter.queue == D.Backlog(false, s.net.emitted, cursor)
  {
  }

  lemma ReachWaiting(hash: string -> string, s: Session)
    requires Reachable(hash, Returned(s))
    requires Returned(s).net.up && Returned(s).net.batch == [] && Returned(s).net.reporter.closed
    ensures Reachable(hash, Waiting(s))
  {
    ReachAmended(hash, Returned(s));
  }

  lemma WaitingRecord(s: Session)
    requires Returned(s).net.reporter.closed && Returned(s).net.reporter.queue == []
    ensures Waiting(s).disk.record.Some?
    ensures var record := Waiting(s).disk.record.value;
            && record.digest == s.row.digest && record.final == s.row.final && record.streamClosed
            && record.acked == Returned(s).net.reporter.acked
    ensures Waiting(s).net == Returned(s).net && !Waiting(s).listed && Waiting(s).phase == Gone
    ensures Waiting(s).released == s.released && Waiting(s).disk.saved == s.disk.saved
  {
  }

  function Announcing(hash: string -> string, result: string, net: D.World): Session {
    START.(phase := Announced, row := EndRow(hash, result, Registered), disk := Disk(Result(result), None), net := net)
  }

  lemma ReachAnnouncing(hash: string -> string, result: string, breaks: bool)
    ensures Reachable(hash, Announcing(hash, result, EmitOn(D.INITIAL, D.Completed(hash(result)), breaks)))
  {
    ReachComputed(hash, result);
    ReachSaved(hash, result);
    ReachNext(hash, Computing(hash, result, Saved, Result(result)), Announce(breaks));
  }

  lemma ReachRecordReleased(hash: string -> string, s: Session, record: Record)
    requires Reachable(hash, s) && !s.listed && s.phase == Gone && s.disk.record == Some(record)
    requires MayReleaseRecord(record, record.digest, record.final)
    ensures exists last :: Reachable(hash, last) && last.phase == Gone && last.released && last.disk.saved == Absent
                        && last.net == s.net
  {
    ReachNext(hash, s, AcknowledgeRecord(record.digest, record.final));
    ReleasedByRecord(hash, s, record.digest, record.final);
    assert Next(hash, s, AcknowledgeRecord(record.digest, record.final)).net == s.net;
  }

  /** For every result some run completes, dies, comes back and is then released through its record. */
  lemma CompletedIsReleasedByRecord(hash: string -> string, result: string)
    ensures exists s :: Reachable(hash, s) && s.phase == Gone && s.released && s.disk.saved == Absent
                     && s.net.store == s.net.emitted == [D.Event(1, D.Completed(hash(result)), false)]
  {
    var e := D.Event(1, D.Completed(hash(result)), false);
    ReachAnnouncing(hash, result, false);
    assert D.INITIAL == D.Quiet([], {});
    ReachDelivered(hash, Announcing(hash, result, EmitOn(D.INITIAL, e.body, false)), e);
    var done := Announcing(hash, result, D.Quiet([e], {[e]}));
    ReachReturned(hash, done);
    ReturnedNet(done);
    D.BacklogHolds(false, [e], 1);
    ReachWaiting(hash, done);
    WaitingRecord(done);
    ReachRecordReleased(hash, Waiting(done), Waiting(done).disk.record.value);
  }

  /** Stored by the server, but the answer was lost. */
  function Unheard(e: D.Event): D.World {
    var net := EmitOn(D.INITIAL, e.body, e.breaks);
    net.(batch := [e], wire := {[e]}, store := [e])
  }

  lemma StoredUnheard(e: D.Event)
    requires e.number == 1
    ensures var net := EmitOn(D.INITIAL, e.body, e.breaks);
            Unheard(e) == D.Next(D.Next(net, D.Take), D.Deliver([e], false, false))
  {
    var net := EmitOn(D.INITIAL, e.body, e.breaks);
    assert net.reporter.queue == [e] && net.emitted == [e];
    D.ReceiveOneOfEmitted([], e, [e]);
    D.ReceiveSnoc([], [], [], e, D.Accepted([e]));
    assert [] + [e] == [e];
  }

  /** A session that can never be released: known by its record, whose stream is closed before the final number. */
  predicate Unreleasable(s: Session) {
    && !s.listed && s.phase == Gone && !s.released && s.disk.record.Some?
    && s.disk.record.value.streamClosed && s.disk.record.value.final.Some?
    && s.disk.record.value.acked < s.disk.record.value.final.value
  }

  lemma PosterStaysUnreleasable(hash: string -> string, s: Session, expired: bool)
    requires D.Inv(s.net) && RecordIsTrue(s) && Unreleasable(s) && Enabled(s, PosterEnds(expired))
    ensures var next := Apply(hash, s, PosterEnds(expired)); Unreleasable(next) && next.disk.saved == s.disk.saved
  {
  }

  lemma NetStaysUnreleasable(hash: string -> string, s: Session, step: Step)
    requires Unreleasable(s) && Enabled(s, step) && OnNet(step)
    ensures Unreleasable(Apply(hash, s, step)) && Apply(hash, s, step).disk == s.disk
  {
    match step
    case Net(_) =>
    case Progress(_, _) =>
    case CloseReporter =>
    case Crash =>
    case Restart =>
  }

  lemma NothingElse(s: Session, step: Step)
    requires Unreleasable(s) && Late(step)
    ensures !Enabled(s, step)
  {
    match step
    case Finish =>
    case Forget =>
    case Cancel =>
    case Acknowledge(_, _) =>
    case AcknowledgeRecord(_, _) =>
  }

  lemma StaysUnreleasable(hash: string -> string, s: Session, step: Step)
    requires Sane(s) && RecordIsTrue(s) && Unreleasable(s) && Enabled(s, step)
    ensures Unreleasable(Apply(hash, s, step)) && Apply(hash, s, step).disk.saved == s.disk.saved
  {
    if step.PosterEnds? {
      PosterStaysUnreleasable(hash, s, step.expired);
    } else if OnNet(step) {
      NetStaysUnreleasable(hash, s, step);
    } else {
      OnlyLateSteps(s, step);
      NothingElse(s, step);
    }
  }

  lemma {:induction false} UnreleasableNext(hash: string -> string, steps: seq<Step>, step: Step)
    requires Unreleasable(Play(hash, steps))
    ensures Unreleasable(Next(hash, Play(hash, steps), step))
    ensures Next(hash, Play(hash, steps), step).disk.saved == Play(hash, steps).disk.saved
  {
    Always(hash, steps);
    InvIsSane(hash, Play(hash, steps));
    AlwaysTrue(hash, steps);
    if Enabled(Play(hash, steps), step) {
      StaysUnreleasable(hash, Play(hash, steps), step);
    }
  }

  lemma {:induction false} UnreleasableForGood(hash: string -> string, steps: seq<Step>, more: seq<Step>)
    requires Unreleasable(Play(hash, steps))
    ensures Unreleasable(Play(hash, steps + more))
    ensures Play(hash, steps + more).disk.saved == Play(hash, steps).disk.saved
    decreases |more|
  {
    if more == [] {
      assert steps + more == steps;
    } else {
      var front, last := more[..|more| - 1], more[|more| - 1];
      UnreleasableForGood(hash, steps, front);
      UnreleasableNext(hash, steps + front, last);
      PlaySnoc(hash, steps + front, last);
      assert steps + front + [last] == steps + more;
    }
  }

  lemma ReachStored(hash: string -> string, result: string, e: D.Event)
    requires e == D.Event(1, D.Completed(hash(result)), true)
    ensures Reachable(hash, Announcing(hash, result, Unheard(e)))
  {
    ReachAnnouncing(hash, result, true);
    StoredUnheard(e);
    var sent := Announcing(hash, result, EmitOn(D.INITIAL, e.body, true));
    ReachNet(hash, sent, D.Take);
    ReachNet(hash, sent.(net := D.Next(sent.net, D.Take)), D.Deliver([e], false, false));
  }

  lemma ReachUnreleasable(hash: string -> string, result: string, e: D.Event)
    requires e == D.Event(1, D.Completed(hash(result)), true)
    ensures var s := Waiting(Announcing(hash, result, Unheard(e)));
            && Reachable(hash, s) && Unreleasable(s) && s.disk.saved == Result(result)
            && s.net.store == s.net.emitted == [e]
  {
    var stored := Announcing(hash, result, Unheard(e));
    ReachStored(hash, result, e);
    ReachReturned(hash, stored);
    ReturnedNet(stored);
    D.NothingToRecover([], e);
    assert [] + [e] == [e];
    ReachWaiting(hash, stored);
    WaitingRecord(stored);
  }

  /** But a completion whose line is broken can be with the server and the session never released: the answer to its
      post is lost, and the restart drops it, so that the cursor never reaches it. */
  lemma DeliveredCanStayUnreleased(hash: string -> string, result: string)
    ensures exists steps ::
              var s := Play(hash, steps);
              && s.net.store == s.net.emitted == [D.Event(1, D.Completed(hash(result)), true)]
              && forall more: seq<Step> :: !Play(hash, steps + more).released
                                        && Play(hash, steps + more).disk.saved == Result(result)
  {
    var e := D.Event(1, D.Completed(hash(result)), true);
    ReachUnreleasable(hash, result, e);
    var steps :| Play(hash, steps) == Waiting(Announcing(hash, result, Unheard(e)));
    forall more: seq<Step>
      ensures !Play(hash, steps + more).released && Play(hash, steps + more).disk.saved == Result(result)
    {
      UnreleasableForGood(hash, steps, more);
    }
  }
}
