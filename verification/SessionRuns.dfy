/** Persisting a session as the single steps it consists of, and runs in which an acknowledgement comes between
    them. */
module SessionRuns {
  import opened Options
  import opened SessionLifecycle
  import D = EventDelivery

  // --- The method that persists, and what can come between its steps. ---

  lemma TestFileIs(hash: string -> string, s: Session)
    requires s.phase == Tested && s.disk.saved == Absent
    ensures Next(hash, s, TestFile) == s.(phase := Missing)
  {
  }

  lemma CaptureIs(hash: string -> string, s: Session)
    requires s.phase == Missing
    ensures Next(hash, s, Capture) == s.(phase := Holding(s.row.result))
  {
  }

  lemma ReplaceIs(hash: string -> string, s: Session, value: Option<string>)
    requires s.phase == Holding(value)
    ensures Next(hash, s, ReplaceFile) == s.(phase := KeptResult, disk := s.disk.(saved := FileOf(value)))
  {
  }

  lemma KeptIsKept(hash: string -> string, s: Session)
    requires s.phase == KeptResult
    ensures Next(hash, s, TestFile) == s && Next(hash, s, Capture) == s && Next(hash, s, ReplaceFile) == s
  {
  }

  lemma FirstTests(hash: string -> string, s: Session)
    requires s.phase == Closed
    ensures var tested := Next(hash, s, TestResult);
            && (s.row.result.None? ==> tested == s.(phase := KeptResult))
            && (s.row.result.Some? ==> tested == s.(phase := Tested))
            && (s.row.result.Some? && s.disk.saved != Absent ==>
                  Next(hash, tested, TestFile) == s.(phase := KeptResult))
  {
  }

  /** With a result in memory and no file. */
  predicate MustWrite(s: Session) {
    s.row.result.Some? && s.disk.saved == Absent
  }

  /** The tests, and what is then taken to be written. */
  function Held(hash: string -> string, s: Session): Session {
    Next(hash, Next(hash, Next(hash, s, TestResult), TestFile), Capture)
  }

  lemma HeldToWrite(hash: string -> string, s: Session)
    requires s.phase == Closed && MustWrite(s)
    ensures Held(hash, s) == s.(phase := Holding(s.row.result))
  {
    FirstTests(hash, s);
    TestFileIs(hash, s.(phase := Tested));
    CaptureIs(hash, s.(phase := Missing));
  }

  lemma HeldAlready(hash: string -> string, s: Session)
    requires s.phase == Closed && !MustWrite(s)
    ensures Held(hash, s) == s.(phase := KeptResult)
  {
    FirstTests(hash, s);
    KeptIsKept(hash, s.(phase := KeptResult));
  }

  lemma KeepIsItsSteps(hash: string -> string, s: Session)
    requires s.phase == if MustWrite(s) then Holding(s.row.result) else KeptResult
    ensures Next(hash, s, ReplaceFile) == s.(phase := KeptResult, disk := Kept(s.row, s.disk))
    ensures Kept(s.row, s.disk) != s.disk <==> MustWrite(s)
  {
    if MustWrite(s) {
      ReplaceIs(hash, s, s.row.result);
    } else {
      KeptIsKept(hash, s);
    }
  }

  lemma WriteRecordIs(hash: string -> string, s: Session)
    requires s.phase == KeptResult
    ensures Next(hash, s, WriteRecord) == s.(phase := Recorded, row := s.row.(result := None),
              disk := s.disk.(record := Some(RecordOf(s.row, s.disk, s.net.reporter, s.posting))))
  {
  }

  lemma PersistFailsIs(hash: string -> string, s: Session)
    requires s.phase == KeptResult || s.phase.Holding?
    ensures Next(hash, s, PersistFails) == s.(phase := Unrecorded, row := s.row.(status := Unknown), unrecorded := true)
  {
  }

  /** The writes, where that of the file or that of the record may fail. */
  function Writes(hash: string -> string, held: Session, fileWritable: bool, recordWritable: bool): Session {
    if held.phase.Holding? && !fileWritable then Next(hash, held, PersistFails)
    else if recordWritable then Next(hash, Next(hash, held, ReplaceFile), WriteRecord)
    else Next(hash, Next(hash, held, ReplaceFile), PersistFails)
  }

  function PersistEnded(s: Session, row: Row, disk: Disk, written: bool): Session {
    if written then s.(phase := Recorded, row := row, disk := disk)
    else s.(phase := Unrecorded, row := row, disk := disk, unrecorded := true)
  }

  lemma FileIsNotWritten(hash: string -> string, s: Session, recordWritable: bool)
    requires s.phase.Holding? && MustWrite(s)
    ensures var (row, disk) := Persisted(s.row, s.disk, s.net.reporter, s.posting, false, recordWritable);
            Writes(hash, s, false, recordWritable) == PersistEnded(s, row, disk, false)
  {
    PersistFailsIs(hash, s);
  }

  predicate ReadyToWrite(s: Session, fileWritable: bool) {
    if MustWrite(s) then s.phase == Holding(s.row.result) && fileWritable else s.phase == KeptResult
  }

  lemma PersistedIs(s: Session, fileWritable: bool, recordWritable: bool)
    requires MustWrite(s) ==> fileWritable
    ensures Persisted(s.row, s.disk, s.net.reporter, s.posting, fileWritable, recordWritable) ==
      var kept := Kept(s.row, s.disk);
      if !recordWritable then (s.row.(status := Unknown), kept)
      else (s.row.(result := None), kept.(record := Some(RecordOf(s.row, kept, s.net.reporter, s.posting))))
  {
  }

  lemma RecordIsWritten(hash: string -> string, s: Session, fileWritable: bool)
    requires ReadyToWrite(s, fileWritable)
    ensures var (row, disk) := Persisted(s.row, s.disk, s.net.reporter, s.posting, fileWritable, true);
            Writes(hash, s, fileWritable, true) == PersistEnded(s, row, disk, true)
  {
    PersistedIs(s, fileWritable, true);
    KeepIsItsSteps(hash, s);
    WriteRecordIs(hash, s.(phase := KeptResult, disk := Kept(s.row, s.disk)));
  }

  lemma RecordIsNotWritten(hash: string -> string, s: Session, fileWritable: bool)
    requires ReadyToWrite(s, fileWritable)
    ensures var (row, disk) := Persisted(s.row, s.disk, s.net.reporter, s.posting, fileWritable, false);
            Writes(hash, s, fileWritable, false) == PersistEnded(s, row, disk, false)
  {
    PersistedIs(s, fileWritable, false);
    KeepIsItsSteps(hash, s);
    PersistFailsIs(hash, s.(phase := KeptResult, disk := Kept(s.row, s.disk)));
  }

  /** Nothing in between: the steps leave what the method says, whichever of the writes fails. */
  lemma PersistIsItsSteps(hash: string -> string, s: Session, fileWritable: bool, recordWritable: bool)
    requires s.phase == Closed
    ensures var (row, disk) := Persisted(s.row, s.disk, s.net.reporter, s.posting, fileWritable, recordWritable);
            Writes(hash, Held(hash, s), fileWritable, recordWritable)
              == PersistEnded(s, row, disk, recordWritable && (fileWritable || !MustWrite(s)))
  {
    if MustWrite(s) {
      HeldToWrite(hash, s);
    } else {
      HeldAlready(hash, s);
    }
    var held := s.(phase := if MustWrite(s) then Holding(s.row.result) else KeptResult);
    if MustWrite(s) && !fileWritable {
      FileIsNotWritten(hash, held, recordWritable);
    } else if recordWritable {
      RecordIsWritten(hash, held, fileWritable);
    } else {
      RecordIsNotWritten(hash, held, fileWritable);
    }
  }

  /** Undisturbed, the separate steps of an error leave the row and the reporter that the handler leaves. */
  lemma HandleIsItsSteps(hash: string -> string, s: Session, end: Status, breaks: bool)
    requires s.phase == Working || s.phase == Computed || s.phase == Saved
    requires s.net.up && !s.net.reporter.closed && (end == Aborted || end == Failed || end == Unknown)
    ensures var settled := SettledOn(s.row, end);
            var last := Next(hash, Next(hash, Next(hash, s, Raise(settled)), Excuse(breaks)), Settle);
            && last.phase == Leaving && last.disk == s.disk
            && last.net.reporter == D.Emitted(s.net.reporter, D.Failed(StatusText(settled)), breaks)
            && last.row == s.row.(status := settled, emissionsClosed := true, final := Some(last.net.reporter.sequence))
  {
    var settled := SettledOn(s.row, end);
    assert Enabled(s, Raise(settled));
  }

  ghost predicate Reachable(hash: string -> string, s: Session) {
    exists steps :: Play(hash, steps) == s
  }

  lemma ReachNext(hash: string -> string, s: Session, step: Step)
    requires Reachable(hash, s)
    ensures Reachable(hash, Next(hash, s, step))
  {
    var steps :| Play(hash, steps) == s;
    PlaySnoc(hash, steps, step);
  }

  ghost predicate ComesBack(hash: string -> string, s: Session, saved: File) {
    Reachable(hash, s) && s.released && s.late && s.disk.saved == saved && s.disk.record.Some?
    && s.disk.record.value.available
  }

  predicate AtTheDoor(s: Session, digest: Option<string>, final: Option<nat>) {
    && s.phase == Closed && s.listed && s.row.result.Some?
    && MayRelease(s.row, s.net.reporter, s.posting, digest, final)
  }

  lemma ReachTested(hash: string -> string, s: Session)
    requires Reachable(hash, s) && s.phase == Closed && s.row.result.Some?
    ensures Reachable(hash, s.(phase := Tested))
  {
    ReachNext(hash, s, TestResult);
  }

  lemma ReachMissing(hash: string -> string, s: Session)
    requires Reachable(hash, s) && s.phase == Tested && s.disk.saved == Absent
    ensures Reachable(hash, s.(phase := Missing))
  {
    ReachNext(hash, s, TestFile);
  }

  lemma ReachHolding(hash: string -> string, s: Session)
    requires Reachable(hash, s) && s.phase == Missing
    ensures Reachable(hash, s.(phase := Holding(s.row.result)))
  {
    ReachNext(hash, s, Capture);
  }

  lemma ReachKept(hash: string -> string, s: Session, value: Option<string>)
    requires Reachable(hash, s) && s.phase == Holding(value)
    ensures Reachable(hash, s.(phase := KeptResult, disk := s.disk.(saved := FileOf(value))))
  {
    ReachNext(hash, s, ReplaceFile);
  }

  function Released(s: Session): Session {
    s.(row := s.row.(result := None), disk := WithoutResult(s.disk), released := true, late := InWindow(s.phase))
  }

  lemma ReachReleased(hash: string -> string, s: Session, digest: Option<string>, final: Option<nat>)
    requires Reachable(hash, s) && InWindow(s.phase) && s.listed
    requires MayRelease(s.row, s.net.reporter, s.posting, digest, final)
    ensures Reachable(hash, Released(s))
  {
    ReachNext(hash, s, Acknowledge(digest, final));
  }

  lemma ReachBack(hash: string -> string, s: Session) returns (last: Session)
    requires Reachable(hash, s) && s.phase == KeptResult && s.released && s.late && s.disk.saved != Absent
    ensures ComesBack(hash, last, s.disk.saved)
  {
    ReachNext(hash, s, WriteRecord);
    last := Next(hash, s, WriteRecord);
  }

  /** Acknowledged behind the first look: what is written is a null. */
  lemma NullComesBack(hash: string -> string, s: Session, digest: Option<string>, final: Option<nat>)
    returns (last: Session)
    requires Reachable(hash, s) && AtTheDoor(s, digest, final)
    ensures ComesBack(hash, last, Null)
  {
    ReachTested(hash, s);
    ReachReleased(hash, s.(phase := Tested), digest, final);
    var released := Released(s.(phase := Tested));
    ReachMissing(hash, released);
    ReachHolding(hash, released.(phase := Missing));
    ReachKept(hash, released.(phase := Holding(None)), None);
    last := ReachBack(hash, released.(phase := KeptResult, disk := released.disk.(saved := Null)));
  }

  /** Acknowledged behind the last look: what is written is the result. */
  lemma ResultComesBack(hash: string -> string, s: Session, digest: Option<string>, final: Option<nat>)
    returns (last: Session)
    requires Reachable(hash, s) && AtTheDoor(s, digest, final) && s.disk.saved == Absent
    ensures ComesBack(hash, last, Result(s.row.result.value))
  {
    ReachTested(hash, s);
    ReachMissing(hash, s.(phase := Tested));
    ReachHolding(hash, s.(phase := Missing));
    ReachReleased(hash, s.(phase := Holding(s.row.result)), digest, final);
    var released := Released(s.(phase := Holding(s.row.result)));
    ReachKept(hash, released, s.row.result);
    last := ReachBack(hash, released.(phase := KeptResult, disk := released.disk.(saved := FileOf(s.row.result))));
  }

  lemma ReachNet(hash: string -> string, s: Session, step: D.Step)
    requires Reachable(hash, s) && s.posting && (ByPoster(step) || step.Deliver?)
    ensures Reachable(hash, s.(net := D.Next(s.net, step)))
  {
    ReachNext(hash, s, Net(step));
  }

  lemma ReachThree(hash: string -> string, s: Session, a: D.Step, b: D.Step, c: D.Step, net: D.World)
    requires Reachable(hash, s) && s.posting
    requires forall step :: step in {a, b, c} ==> ByPoster(step) || step.Deliver?
    requires net == D.Next(D.Next(D.Next(s.net, a), b), c)
    ensures Reachable(hash, s.(net := net))
  {
    ReachNet(hash, s, a);
    ReachNet(hash, s.(net := D.Next(s.net, a)), b);
    ReachNet(hash, s.(net := D.Next(D.Next(s.net, a), b)), c);
  }

  lemma RoundTripOfFirst(e: D.Event)
    requires e.number == 1
    ensures var sent := EmitOn(D.Quiet([], {}), e.body, e.breaks);
            D.Quiet([e], {[e]}) == D.Next(D.Next(D.Next(sent, D.Take), D.Deliver([e], false, true)), D.Ack)
  {
    D.OneRoundTrip([], e, {});
    assert [] + [e] == [e] && {} + {[e]} == {[e]};
  }

  /** The terminal event of a session delivered and acknowledged. */
  lemma ReachDelivered(hash: string -> string, s: Session, e: D.Event)
    requires Reachable(hash, s) && s.posting && e.number == 1
    requires s.net == EmitOn(D.Quiet([], {}), e.body, e.breaks)
    ensures Reachable(hash, s.(net := D.Quiet([e], {[e]})))
  {
    RoundTripOfFirst(e);
    ReachThree(hash, s, D.Take, D.Deliver([e], false, true), D.Ack, D.Quiet([e], {[e]}));
  }

  lemma ReachKilled(hash: string -> string, s: Session)
    requires Reachable(hash, s) && s.phase == Leaving
    ensures Reachable(hash, s.(phase := Killed))
  {
    ReachNext(hash, s, Kill);
  }

  lemma ReachClosed(hash: string -> string, s: Session)
    requires Reachable(hash, s) && s.phase == Killed && s.net.up
    ensures Reachable(hash, s.(phase := Closed, net := s.net.(reporter := s.net.reporter.(closed := true))))
  {
    ReachNext(hash, s, CloseReporter);
  }

  lemma ReachUnposted(hash: string -> string, s: Session)
    requires Reachable(hash, s) && s.posting && s.net.up && s.net.batch == [] && s.net.reporter.closed
    requires s.disk.record == None
    ensures Reachable(hash, s.(posting := false))
  {
    ReachNext(hash, s, PosterEnds(false));
  }

  /** A session whose terminal event has been delivered. */
  function AtEnd(row: Row, e: D.Event, saved: File, phase: Phase): Session {
    START.(net := D.Quiet([e], {[e]}), row := row, phase := phase, disk := Disk(saved, None))
  }

  function Door(row: Row, e: D.Event, saved: File): Session {
    var net := D.Quiet([e], {[e]});
    START.(net := net.(reporter := net.reporter.(closed := true)), row := row, phase := Closed, posting := false,
           disk := Disk(saved, None))
  }

  lemma ReachDoor(hash: string -> string, row: Row, e: D.Event, saved: File)
    requires Reachable(hash, AtEnd(row, e, saved, Leaving))
    requires row.result.Some? && Terminal(row.status) && row.final == Some(1)
    ensures Reachable(hash, Door(row, e, saved)) && AtTheDoor(Door(row, e, saved), row.digest, Some(1))
  {
    var s := AtEnd(row, e, saved, Leaving);
    ReachKilled(hash, s);
    ReachClosed(hash, s.(phase := Killed));
    var net := s.net.(reporter := s.net.reporter.(closed := true));
    ReachUnposted(hash, s.(phase := Closed, net := net));
  }

  function Computing(hash: string -> string, result: string, phase: Phase, saved: File): Session {
    START.(phase := phase, row := FRESH.(result := Some(result), digest := Some(hash(result))),
           disk := Disk(saved, None))
  }

  function EndRow(hash: string -> string, result: string, status: Status): Row {
    FRESH.(result := Some(result), digest := Some(hash(result)), final := Some(1), emissionsClosed := true,
           status := status)
  }

  lemma ReachComputed(hash: string -> string, result: string)
    ensures Reachable(hash, Computing(hash, result, Computed, Absent))
  {
    assert Play(hash, []) == START;
    ReachNext(hash, START, Compute(result));
  }

  lemma ReachSaved(hash: string -> string, result: string)
    requires Reachable(hash, Computing(hash, result, Computed, Absent))
    ensures Reachable(hash, Computing(hash, result, Saved, Result(result)))
  {
    ReachNext(hash, Computing(hash, result, Computed, Absent), Save);
  }

  lemma ReachAnnounced(hash: string -> string, result: string)
    requires Reachable(hash, Computing(hash, result, Saved, Result(result)))
    ensures Reachable(hash, START.(phase := Announced, row := EndRow(hash, result, Registered),
      disk := Disk(Result(result), None), net := EmitOn(D.Quiet([], {}), D.Completed(hash(result)), false)))
  {
    ReachNext(hash, Computing(hash, result, Saved, Result(result)), Announce(false));
    assert D.INITIAL == D.Quiet([], {});
  }

  lemma ReachConcluded(hash: string -> string, result: string, e: D.Event)
    requires Reachable(hash, AtEnd(EndRow(hash, result, Registered), e, Result(result), Announced))
    ensures Reachable(hash, AtEnd(EndRow(hash, result, Completed), e, Result(result), Leaving))
  {
    ReachNext(hash, AtEnd(EndRow(hash, result, Registered), e, Result(result), Announced), Conclude);
  }

  lemma ReachCompleted(hash: string -> string, result: string, e: D.Event)
    requires e == D.Event(1, D.Completed(hash(result)), false)
    ensures Reachable(hash, AtEnd(EndRow(hash, result, Completed), e, Result(result), Leaving))
  {
    ReachComputed(hash, result);
    ReachSaved(hash, result);
    ReachAnnounced(hash, result);
    ReachDelivered(hash, START.(phase := Announced, row := EndRow(hash, result, Registered),
      disk := Disk(Result(result), None), net := EmitOn(D.Quiet([], {}), D.Completed(hash(result)), false)), e);
    ReachConcluded(hash, result, e);
  }

  /** Saving the result fails. */
  lemma ReachRaised(hash: string -> string, result: string)
    requires Reachable(hash, Computing(hash, result, Computed, Absent))
    ensures Reachable(hash, Computing(hash, result, Failing(Failed), Absent))
  {
    ReachNext(hash, Computing(hash, result, Computed, Absent), Raise(Failed));
  }

  lemma ReachExcused(hash: string -> string, result: string)
    requires Reachable(hash, Computing(hash, result, Failing(Failed), Absent))
    ensures Reachable(hash, START.(phase := Excused(Failed), row := EndRow(hash, result, Registered),
      net := EmitOn(D.Quiet([], {}), D.Failed("failed"), false)))
  {
    ReachNext(hash, Computing(hash, result, Failing(Failed), Absent), Excuse(false));
    assert D.INITIAL == D.Quiet([], {});
  }

  lemma ReachSettled(hash: string -> string, result: string, e: D.Event)
    requires Reachable(hash, AtEnd(EndRow(hash, result, Registered), e, Absent, Excused(Failed)))
    ensures Reachable(hash, AtEnd(EndRow(hash, result, Failed), e, Absent, Leaving))
  {
    ReachNext(hash, AtEnd(EndRow(hash, result, Registered), e, Absent, Excused(Failed)), Settle);
  }

  lemma ReachFailed(hash: string -> string, result: string, e: D.Event)
    requires e == D.Event(1, D.Failed("failed"), false)
    ensures Reachable(hash, AtEnd(EndRow(hash, result, Failed), e, Absent, Leaving))
  {
    ReachComputed(hash, result);
    ReachRaised(hash, result);
    ReachExcused(hash, result);
    ReachDelivered(hash, START.(phase := Excused(Failed), row := EndRow(hash, result, Registered),
      net := EmitOn(D.Quiet([], {}), D.Failed("failed"), false)), e);
    ReachSettled(hash, result, e);
  }

  /** And both do happen: for every result some run leaves a null behind, and some run the result itself,
      after it was released. */
  lemma ReleasedResultCanComeBack(hash: string -> string, result: string)
    ensures exists s :: ComesBack(hash, s, Null)
    ensures exists s :: ComesBack(hash, s, Result(result))
  {
    var digest := Some(hash(result));
    var e := D.Event(1, D.Completed(hash(result)), false);
    ReachCompleted(hash, result, e);
    ReachDoor(hash, EndRow(hash, result, Completed), e, Result(result));
    var last := NullComesBack(hash, Door(EndRow(hash, result, Completed), e, Result(result)), digest, Some(1));
    e := D.Event(1, D.Failed("failed"), false);
    ReachFailed(hash, result, e);
    ReachDoor(hash, EndRow(hash, result, Failed), e, Absent);
    last := ResultComesBack(hash, Door(EndRow(hash, result, Failed), e, Absent), digest, Some(1));
  }

  // --- Sessions that an uncaught exception has left without a final number. ---

  predicate AllNotes(events: seq<D.Event>) {
    forall e :: e in events ==> e.body.Note?
  }

  lemma ReachOneMore(hash: string -> string, front: seq<D.Event>, e: D.Event, wire: set<seq<D.Event>>)
    requires D.Numbered(front + [e]) && e.body.Note?
    requires Reachable(hash, START.(net := D.Quiet(front, wire)))
    ensures Reachable(hash, START.(net := D.Quiet(front + [e], wire + {[e]})))
  {
    var s := START.(net := D.Quiet(front, wire));
    ReachNext(hash, s, Progress(e.body.text, e.breaks));
    var sent := START.(net := EmitOn(s.net, e.body, e.breaks));
    D.OneRoundTrip(front, e, wire);
    ReachThree(hash, sent, D.Take, D.Deliver([e], false, true), D.Ack, D.Quiet(front + [e], wire + {[e]}));
  }

  /** Any notes emitted and delivered. */
  lemma {:induction false} ReachQuiet(hash: string -> string, events: seq<D.Event>) returns (wire: set<seq<D.Event>>)
    requires D.Numbered(events) && AllNotes(events)
    ensures Reachable(hash, START.(net := D.Quiet(events, wire)))
  {
    if events == [] {
      wire := {};
      assert Play(hash, []) == START && D.INITIAL == D.Quiet([], {});
    } else {
      var front, e := events[..|events| - 1], events[|events| - 1];
      assert front + [e] == events;
      var before := ReachQuiet(hash, front);
      ReachOneMore(hash, front, e, before);
      wire := before + {[e]};
    }
  }

  /** The events but the last delivered, the last emitted, and an exception that nothing catches. */
  function Escaped(front: seq<D.Event>, e: D.Event, wire: set<seq<D.Event>>, phase: Phase, closed: bool): Session {
    var net := EmitOn(D.Quiet(front, wire), e.body, e.breaks);
    START.(net := if closed then net.(reporter := net.reporter.(closed := true)) else net, phase := phase,
           escaped := true)
  }

  lemma EscapedNet(front: seq<D.Event>, e: D.Event, wire: set<seq<D.Event>>)
    requires D.Numbered(front + [e])
    ensures var net := EmitOn(D.Quiet(front, wire), e.body, e.breaks);
            && net.emitted == front + [e] && net.store == front && net.up && net.batch == []
            && net.reporter.spool == D.Spool(true, front + [e], |front|)
  {
    assert (front + [e])[|front|] == e;
    assert D.NextEvent(D.Quiet(front, wire).reporter, e.body, e.breaks) == e;
  }

  lemma FrontOfNotes(front: seq<D.Event>, e: D.Event)
    requires D.Numbered(front + [e]) && AllNotes(front + [e])
    ensures D.Numbered(front) && AllNotes(front) && e.body.Note?
  {
    assert forall i :: 0 <= i < |front| ==> front[i] == (front + [e])[i];
    assert (front + [e])[|front|] == e;
  }

  lemma ReachNoted(hash: string -> string, net: D.World, text: string, breaks: bool)
    requires Reachable(hash, START.(net := net))
    ensures Reachable(hash, START.(net := EmitOn(net, D.Note(text), breaks)))
  {
    ReachNext(hash, START.(net := net), Progress(text, breaks));
  }

  lemma ReachLeaving(hash: string -> string, net: D.World)
    requires Reachable(hash, START.(net := net))
    ensures Reachable(hash, START.(net := net, phase := Leaving, escaped := true))
  {
    ReachNext(hash, START.(net := net), Escape);
  }

  lemma ReachEscaped(hash: string -> string, front: seq<D.Event>, e: D.Event) returns (wire: set<seq<D.Event>>)
    requires D.Numbered(front + [e]) && AllNotes(front + [e])
    ensures Reachable(hash, Escaped(front, e, wire, Leaving, false))
  {
    FrontOfNotes(front, e);
    wire := ReachQuiet(hash, front);
    ReachNoted(hash, D.Quiet(front, wire), e.body.text, e.breaks);
    ReachLeaving(hash, EmitOn(D.Quiet(front, wire), e.body, e.breaks));
  }

  lemma ReachEscapedClosed(hash: string -> string, front: seq<D.Event>, e: D.Event) returns (wire: set<seq<D.Event>>)
    requires D.Numbered(front + [e]) && AllNotes(front + [e])
    ensures Reachable(hash, Escaped(front, e, wire, Closed, true))
  {
    wire := ReachEscaped(hash, front, e);
    EscapedNet(front, e, wire);
    ReachKilled(hash, Escaped(front, e, wire, Leaving, false));
    ReachClosed(hash, Escaped(front, e, wire, Killed, false));
  }

  lemma ReachNothingKept(hash: string -> string, s: Session)
    requires Reachable(hash, s) && s.phase == Closed && s.row.result == None
    ensures Reachable(hash, s.(phase := KeptResult))
  {
    ReachNext(hash, s, TestResult);
  }

  lemma ReachUnrecorded(hash: string -> string, s: Session)
    requires Reachable(hash, s) && s.phase == KeptResult
    ensures Reachable(hash, s.(phase := Unrecorded, row := s.row.(status := Unknown), unrecorded := true))
  {
    ReachNext(hash, s, PersistFails);
  }

  lemma ReachAcknowledged(hash: string -> string, s: Session)
    requires Reachable(hash, s) && s.phase == Unrecorded && s.listed
    requires MayRelease(s.row, s.net.reporter, s.posting, None, None)
    ensures Reachable(hash, Released(s))
  {
    ReachNext(hash, s, Acknowledge(None, None));
  }

  ghost predicate ReleasedUndelivered(hash: string -> string, s: Session, events: seq<D.Event>) {
    Reachable(hash, s) && s.released && s.net.emitted == events && s.net.store != events
  }

  lemma ReachReleasedUnrecorded(hash: string -> string, s: Session)
    requires Reachable(hash, s) && s.phase == Closed && s.row == FRESH && s.disk == Disk(Absent, None)
    requires s.posting && s.listed && s.net.up && s.net.batch == [] && s.net.reporter.closed
    ensures exists last :: Reachable(hash, last) && last.released && last.unrecorded && last.net == s.net
  {
    ReachUnposted(hash, s);
    ReachNothingKept(hash, s.(posting := false));
    ReachUnrecorded(hash, s.(posting := false, phase := KeptResult));
    var failed := s.(posting := false, phase := Unrecorded, row := s.row.(status := Unknown), unrecorded := true);
    ReachAcknowledged(hash, failed);
    assert Released(failed).unrecorded && Released(failed).net == s.net;
  }

  /** The exception in the acknowledgement of a live session is real: without a final number there is nothing
      to wait for. */
  lemma UnrecordedCanBeReleasedUndelivered(hash: string -> string, events: seq<D.Event>)
    requires D.Numbered(events) && AllNotes(events) && events != []
    ensures exists s :: ReleasedUndelivered(hash, s, events) && s.unrecorded
  {
    var front, e := events[..|events| - 1], events[|events| - 1];
    assert front + [e] == events;
    var wire := ReachEscapedClosed(hash, front, e);
    EscapedNet(front, e, wire);
    ReachReleasedUnrecorded(hash, Escaped(front, e, wire, Closed, true));
  }

  lemma ReachRecorded(hash: string -> string, s: Session)
    requires Reachable(hash, s) && s.phase == KeptResult
    ensures Reachable(hash, s.(phase := Recorded, row := s.row.(result := None),
      disk := s.disk.(record := Some(RecordOf(s.row, s.disk, s.net.reporter, s.posting)))))
  {
    ReachNext(hash, s, WriteRecord);
  }

  lemma ReachCrashed(hash: string -> string, s: Session)
    requires Reachable(hash, s) && s.net.up
    ensures Reachable(hash, s.(net := D.Next(s.net, D.Crash), phase := Gone, listed := false, posting := false))
  {
    ReachNext(hash, s, Crash);
  }

  lemma ReachRestarted(hash: string -> string, s: Session)
    requires Reachable(hash, s) && !s.net.up && s.net.reporter.spool.present
    ensures Reachable(hash, s.(net := D.Next(s.net, D.Recover), posting := true))
  {
    ReachNext(hash, s, Restart);
  }

  lemma ReachAmended(hash: string -> string, s: Session)
    requires Reachable(hash, s) && s.posting && s.net.up && s.net.batch == [] && s.net.reporter.closed
    ensures Reachable(hash, s.(posting := false, disk := Amended(s.disk, s.net.reporter)))
  {
    ReachNext(hash, s, PosterEnds(false));
  }

  lemma ReachRecordAcknowledged(hash: string -> string, s: Session, record: Record)
    requires Reachable(hash, s) && !s.listed && s.disk.record == Some(record) && MayReleaseRecord(record, None, None)
    ensures Reachable(hash, s.(disk := WithoutResult(s.disk), released := true, late := false))
  {
    ReachNext(hash, s, AcknowledgeRecord(None, None));
  }

  /** Nothing is read back behind the cursor when the only line there is broken. */
  lemma NothingReadBack(front: seq<D.Event>, e: D.Event, wire: set<seq<D.Event>>)
    requires D.Numbered(front + [e]) && e.breaks
    ensures var sent := EmitOn(D.Quiet(front, wire), e.body, e.breaks);
            var closed := sent.(reporter := sent.reporter.(closed := true));
            var down := D.Next(closed, D.Crash);
            var back := D.Next(down, D.Recover);
            && !down.up && down.reporter.spool.present
            && back.up && back.batch == [] && back.store == front && back.emitted == front + [e]
            && back.reporter.closed && back.reporter.queue == []
  {
    EscapedNet(front, e, wire);
    assert forall i :: 0 <= i < |front| ==> front[i] == (front + [e])[i];
    D.NothingToRecover(front, e);
  }

  lemma ReachAtDoor(hash: string -> string, s: Session)
    requires Reachable(hash, s) && s.phase == Closed && s.row == FRESH && s.net.up && s.disk == Disk(Absent, None)
    requires D.Next(s.net, D.Crash).reporter.spool.present && !D.Next(s.net, D.Crash).up
    ensures var record := RecordOf(s.row, s.disk, s.net.reporter, s.posting);
            var down := s.(phase := Gone, disk := Disk(Absent, Some(record)), net := D.Next(s.net, D.Crash),
                           listed := false, posting := false);
            Reachable(hash, down.(net := D.Next(down.net, D.Recover), posting := true))
  {
    ReachNothingKept(hash, s);
    ReachRecorded(hash, s.(phase := KeptResult));
    var record := RecordOf(s.row, s.disk, s.net.reporter, s.posting);
    var recorded := s.(phase := Recorded, disk := Disk(Absent, Some(record)));
    ReachCrashed(hash, recorded);
    ReachRestarted(hash, recorded.(net := D.Next(s.net, D.Crash), phase := Gone, listed := false, posting := false));
  }

  lemma ReachReleasedByRecord(hash: string -> string, back: Session)
    requires Reachable(hash, back) && !back.listed && back.posting && back.net.up && back.net.batch == []
    requires back.net.reporter.closed && back.net.reporter.queue == []
    requires back.disk.record.Some? && back.disk.record.value.digest == None && back.disk.record.value.final == None
    ensures exists s :: Reachable(hash, s) && s.released && s.net == back.net && s.disk.record.Some?
  {
    ReachAmended(hash, back);
    var last := back.(posting := false, disk := Amended(back.disk, back.net.reporter));
    ReachRecordAcknowledged(hash, last, last.disk.record.value);
    var released := last.(disk := WithoutResult(last.disk), released := true, late := false);
    assert released.net == back.net && released.disk.record.Some?;
  }

  /** And so is the one after a restart, for whatever notes were emitted, the last of them with a broken line. */
  lemma RecordedCanBeReleasedUndelivered(hash: string -> string, events: seq<D.Event>)
    requires D.Numbered(events) && AllNotes(events) && D.LastBreaks(events)
    ensures exists s :: ReleasedUndelivered(hash, s, events) && s.disk.record.Some?
  {
    var front, e := events[..|events| - 1], events[|events| - 1];
    assert front + [e] == events;
    var wire := ReachEscapedClosed(hash, front, e);
    EscapedNet(front, e, wire);
    NothingReadBack(front, e, wire);
    var s := Escaped(front, e, wire, Closed, true);
    ReachAtDoor(hash, s);
    var record := RecordOf(s.row, s.disk, s.net.reporter, s.posting);
    var down := s.(phase := Gone, disk := Disk(Absent, Some(record)), net := D.Next(s.net, D.Crash),
                   listed := false, posting := false);
    ReachReleasedByRecord(hash, down.(net := D.Next(down.net, D.Recover), posting := true));
  }
}
