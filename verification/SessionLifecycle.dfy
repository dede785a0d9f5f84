/** One session from its start to the release of its result: what it announces, what it leaves on disk,
    and what an acknowledgement may take away. */
module SessionLifecycle {
  import opened Options
  import D = EventDelivery

  datatype Status = Registered | Running | Aborting | Completed | Failed | Aborted | Unknown

  predicate Terminal(status: Status) {
    status == Completed || status == Failed || status == Aborted || status == Unknown
  }

  /** The fields of a run that decide about its end, without its reporter. */
  datatype Row = Row(
    status: Status, cancel: bool, done: bool, result: Option<string>, digest: Option<string>,
    final: Option<nat>, emissionsClosed: bool)

  datatype Record = Record(
    status: Status, digest: Option<string>, final: Option<nat>, acked: nat, streamClosed: bool, available: bool)

  /** The result file: a JSON null is written when the result is no longer in memory. */
  datatype File = Absent | Null | Result(text: string)

  /** The result file and the terminal record of the session. */
  datatype Disk = Disk(saved: File, record: Option<Record>)

  const FRESH := Row(Registered, false, false, None, None, None, false)

  function Cancelled(row: Row): Row {
    if row.done then row
    else row.(cancel := true, status := if Terminal(row.status) then row.status else Aborting)
  }

  /** The last locked look at the cancel flag. */
  function Concluded(row: Row): Row {
    if row.cancel then row else row.(status := Completed)
  }

  /** The status of an error, once the cancel flag has been looked at. */
  function SettledOn(row: Row, end: Status): Status {
    if row.cancel then Aborted else end
  }

  function OrZero(final: Option<nat>): nat {
    if final.Some? then final.value else 0
  }

  predicate MayRelease(row: Row, reporter: D.Reporter, posting: bool, digest: Option<string>, final: Option<nat>) {
    && Terminal(row.status) && digest == row.digest && final == row.final
    && reporter.closed && !posting && reporter.acked >= OrZero(row.final)
  }

  function WithoutResult(disk: Disk): Disk {
    Disk(Absent, if disk.record.Some? then Some(disk.record.value.(available := false)) else None)
  }

  function FileOf(result: Option<string>): File {
    if result.Some? then Result(result.value) else Null
  }

  function Kept(row: Row, disk: Disk): Disk {
    if row.result.Some? && disk.saved == Absent then disk.(saved := FileOf(row.result)) else disk
  }

  predicate StreamClosed(reporter: D.Reporter, posting: bool) {
    reporter.closed && !posting && reporter.queue == []
  }

  function RecordOf(row: Row, disk: Disk, reporter: D.Reporter, posting: bool): Record {
    Record(row.status, row.digest, row.final, reporter.acked, StreamClosed(reporter, posting),
           disk.saved != Absent)
  }

  /** What the posting thread adds to the record when it ends. */
  function Amended(disk: Disk, reporter: D.Reporter): Disk {
    if disk.record.None? then disk
    else disk.(record := Some(disk.record.value.(
        acked := reporter.acked, streamClosed := reporter.closed && reporter.queue == [])))
  }

  /** Persisting with nothing in between. A write that fails leaves the status unknown and what is in memory. */
  function Persisted(row: Row, disk: Disk, reporter: D.Reporter, posting: bool, fileWritable: bool,
                     recordWritable: bool): (Row, Disk)
  {
    var kept := Kept(row, disk);
    if kept != disk && !fileWritable then (row.(status := Unknown), disk)
    else if !recordWritable then (row.(status := Unknown), kept)
    else (row.(result := None), kept.(record := Some(RecordOf(row, kept, reporter, posting))))
  }

  predicate MayReleaseRecord(record: Record, digest: Option<string>, final: Option<nat>) {
    digest == record.digest && final == record.final && record.streamClosed && record.acked >= OrZero(record.final)
  }

  class SessionRun {
    var status: Status
    var cancel: bool
    var done: bool
    var result: Option<string>
    var digest: Option<string>
    var final: Option<nat>
    var emissionsClosed: bool
    var eventsFrozen: bool
    var compacting: bool
    var disk: Disk
    const reporter: D.EventReporter

    ghost function View(): Row
      reads this
    {
      Row(status, cancel, done, result, digest, final, emissionsClosed)
    }

    constructor (reporter: D.EventReporter)
      ensures View() == FRESH && disk == Disk(Absent, None) && this.reporter == reporter
      ensures !eventsFrozen && !compacting
    {
      status, cancel, done, result, digest := Registered, false, false, None, None;
      final, emissionsClosed, disk := None, false, Disk(Absent, None);
      eventsFrozen, compacting := false, false;
      this.reporter := reporter;
    }

    method Abort()
      modifies this`status, this`cancel
      ensures View() == Cancelled(old(View()))
    {
      if done {
        return;
      }
      cancel := true;
      if !Terminal(status) {
        status := Aborting;
      }
    }

    /** Once the events are frozen, the thread that collects them is not heard any more. */
    method Emit(text: string, breaks: bool, collector: bool)
      modifies reporter
      ensures reporter.View() == if emissionsClosed || (eventsFrozen && collector) then old(reporter.View())
                                 else D.Emitted(old(reporter.View()), D.Note(text), breaks)
    {
      if !emissionsClosed && !(eventsFrozen && collector) {
        var _ := reporter.Emit(D.Note(text), breaks);
      }
    }

    /** A compaction that begins while one is under way is not noted again; its end is. */
    method Compaction(begins: bool, text: string, breaks: bool, collector: bool)
      modifies this`compacting, reporter
      ensures compacting == begins
      ensures var heard := !emissionsClosed && !(eventsFrozen && collector) && !(begins && old(compacting));
              reporter.View() == if heard then D.Emitted(old(reporter.View()), D.Note(text), breaks)
                                 else old(reporter.View())
    {
      if begins && compacting {
        return;
      }
      compacting := begins;
      Emit(text, breaks, collector);
    }

    /** A compaction under way is noted as broken off first. No sequence number comes back from a closed
        reporter. */
    method EmitTerminal(body: D.Body, breaks: bool, note: string, noteBreaks: bool)
      modifies this`emissionsClosed, this`final, this`compacting, reporter
      ensures var noted := if old(compacting) && !old(emissionsClosed)
                           then D.Emitted(old(reporter.View()), D.Note(note), noteBreaks) else old(reporter.View());
              reporter.View() == D.Emitted(noted, body, breaks)
      ensures View() == old(View()).(
                emissionsClosed := true, final := if old(reporter.closed) then None else Some(reporter.sequence))
      ensures !compacting
    {
      if compacting {
        Compaction(false, note, noteBreaks, false);
      }
      emissionsClosed := true;
      var number := reporter.Emit(body, breaks);
      final := if reporter.closed then None else Some(number);
    }

    method Conclude() returns (raised: bool)
      modifies this`status
      ensures raised == old(cancel) && View() == Concluded(old(View()))
    {
      if cancel {
        return true;
      }
      status := Completed;
      return false;
    }

    /** A handler of `run`: the collecting thread is silenced, and the error announced with the status it settles on. */
    method Handle(end: Status, breaks: bool, note: string, noteBreaks: bool)
      modifies this`eventsFrozen, this`emissionsClosed, this`final, this`compacting, this`status, reporter
      ensures eventsFrozen && !compacting
      ensures var noted := if old(compacting) && !old(emissionsClosed)
                           then D.Emitted(old(reporter.View()), D.Note(note), noteBreaks) else old(reporter.View());
              reporter.View() == D.Emitted(noted, D.Failed(StatusText(SettledOn(old(View()), end))), breaks)
      ensures View() == old(View()).(
                status := SettledOn(old(View()), end), emissionsClosed := true,
                final := if old(reporter.closed) then None else Some(reporter.sequence))
    {
      eventsFrozen := true;
      var settled := if cancel then Aborted else end;
      EmitTerminal(D.Failed(StatusText(settled)), breaks, note, noteBreaks);
      status := settled;
    }

    method PersistTerminal(posting: bool, fileWritable: bool, recordWritable: bool)
      modifies this`status, this`result, this`disk
      ensures (View(), disk)
           == Persisted(old(View()), old(disk), reporter.View(), posting, fileWritable, recordWritable)
    {
      if result.Some? && disk.saved == Absent {
        if !fileWritable {
          status := Unknown;
          return;
        }
        disk := disk.(saved := FileOf(result));
      }
      if !recordWritable {
        status := Unknown;
        return;
      }
      var closed := reporter.closed && !posting && reporter.queue == [];
      disk := disk.(record := Some(Record(status, digest, final, reporter.acked, closed, disk.saved != Absent)));
      result := None;
    }

    method Acknowledge(digest: Option<string>, final: Option<nat>, posting: bool) returns (ok: bool)
      modifies this`result, this`disk
      ensures ok == MayRelease(old(View()), reporter.View(), posting, digest, final)
      ensures View() == if ok then old(View()).(result := None) else old(View())
      ensures disk == if ok then WithoutResult(old(disk)) else old(disk)
    {
      if !Terminal(status) || digest != this.digest || final != this.final
         || !reporter.closed || posting || reporter.acked < OrZero(this.final) {
        return false;
      }
      result := None;
      disk := WithoutResult(disk);
      return true;
    }
  }

  /** A session known only by its record. */
  class TerminalSession {
    var record: Record
    var saved: File

    constructor (record: Record, saved: File)
      ensures this.record == record && this.saved == saved
    {
      this.record, this.saved := record, saved;
    }

    method Acknowledge(digest: Option<string>, final: Option<nat>) returns (ok: bool)
      modifies this
      ensures ok == MayReleaseRecord(old(record), digest, final)
      ensures Disk(saved, Some(record)) == if ok then WithoutResult(Disk(old(saved), Some(old(record))))
                                           else Disk(old(saved), Some(old(record)))
    {
      if digest != record.digest || final != record.final || !record.streamClosed
         || record.acked < OrZero(record.final) {
        return false;
      }
      saved := Absent;
      record := record.(available := false);
      return true;
    }
  }

  // --- A session among cancellations, acknowledgements, a lossy network and crashes. ---

  /** Where `run` is. Failing: in a handler that has settled on a status. Tested, Missing, Holding: it has seen
      a result in memory, then no result file, then taken from memory what it will write. Unrecorded: a write
      has failed. Gone: the process has died. */
  datatype Phase =
    | Working | Computed | Saved | Announced | Failing(end: Status) | Excused(end: Status)
    | Leaving | Killed | Closed | Tested | Missing | Holding(value: Option<string>) | KeptResult
    | Recorded | Unrecorded | Finished | Gone

  /** `inTime`: a cancellation came before the last locked check. `escaped`: an exception `run` does not
      catch went through. `unrecorded`: persisting failed. `late`: the last acknowledgement came between the
      look for a result in memory and the write of its file. `listed`: the registry still knows the run. */
  datatype Session = Session(
    net: D.World, row: Row, phase: Phase, posting: bool, listed: bool, disk: Disk,
    released: bool, late: bool, inTime: bool, escaped: bool, unrecorded: bool)

  datatype Step =
    | Net(step: D.Step)
    | Progress(text: string, breaks: bool)
    | Advance
    | Compute(result: string)
    | Save
    | Announce(breaks: bool)
    | Conclude
    | Raise(end: Status)
    | Excuse(breaks: bool)
    | Settle
    | Escape
    | Kill
    | CloseReporter
    | TestResult
    | TestFile
    | Capture
    | ReplaceFile
    | WriteRecord
    | PersistFails
    | Finish
    | Forget
    | PosterEnds(expired: bool)
    | Cancel
    | Acknowledge(digest: Option<string>, final: Option<nat>)
    | AcknowledgeRecord(digest: Option<string>, final: Option<nat>)
    | Crash
    | Restart

  const START := Session(
    D.INITIAL, FRESH, Working, true, true, Disk(Absent, None), false, false, false, false, false)

  predicate BeforeCheck(phase: Phase) {
    phase == Working || phase == Computed || phase == Saved || phase == Announced
  }

  predicate BeforeEnd(phase: Phase) {
    BeforeCheck(phase) || phase.Failing? || phase.Excused?
  }

  /** Between the look for a result in memory and the write of its file. */
  predicate InWindow(phase: Phase) {
    phase == Tested || phase == Missing || phase.Holding?
  }

  predicate ByPoster(step: D.Step) {
    step.Take? || step.Ack? || step.Lost?
  }

  predicate Enabled(s: Session, step: Step) {
    match step
    case Net(net) => ((ByPoster(net) && s.posting) || net.Deliver? || net.Delete?) && D.Enabled(s.net, net)
    case Progress(_, _) => s.phase != Gone && !s.row.emissionsClosed
    case Advance => s.phase == Working && !s.row.cancel
    case Compute(_) => s.phase == Working
    case Save => s.phase == Computed
    case Announce(_) => s.phase == Saved
    case Conclude => s.phase == Announced
    case Raise(end) =>
      && (s.phase == Working || s.phase == Computed || s.phase == Saved)
      && (if s.row.cancel then end == Aborted else end == Aborted || end == Failed || end == Unknown)
    case Excuse(_) => s.phase.Failing?
    case Settle => s.phase.Excused?
    case Escape => BeforeEnd(s.phase)
    case Kill => s.phase == Leaving
    case CloseReporter => s.phase == Killed
    case TestResult => s.phase == Closed
    case TestFile => s.phase == Tested
    case Capture => s.phase == Missing
    case ReplaceFile => s.phase.Holding?
    case WriteRecord => s.phase == KeptResult
    case PersistFails => s.phase.Holding? || s.phase == KeptResult
    case Finish => s.phase == Recorded || s.phase == Unrecorded
    case Forget => s.phase == Finished && s.disk.record.Some?
    case PosterEnds(expired) => s.posting && s.net.up && s.net.batch == [] && (expired || s.net.reporter.closed)
    case Cancel => s.phase != Gone && s.listed
    case Acknowledge(digest, final) =>
      s.phase != Gone && s.listed && MayRelease(s.row, s.net.reporter, s.posting, digest, final)
    case AcknowledgeRecord(digest, final) =>
      !s.listed && s.disk.record.Some? && MayReleaseRecord(s.disk.record.value, digest, final)
    case Crash => s.net.up
    case Restart => !s.net.up && s.net.reporter.spool.present
  }

  function EmitOn(net: D.World, body: D.Body, breaks: bool): D.World {
    D.Next(net, D.Emit(body, breaks))
  }

  function Ended(s: Session, body: D.Body, breaks: bool, phase: Phase): Session {
    s.(net := EmitOn(s.net, body, breaks), phase := phase,
       row := s.row.(emissionsClosed := true,
                     final := if s.net.reporter.closed then None else Some(s.net.reporter.sequence + 1)))
  }

  function StatusText(status: Status): string {
    match status
    case Aborted => "aborted"
    case Unknown => "unknown"
    case _ => "failed"
  }

  function Apply(hash: string -> string, s: Session, step: Step): Session
    requires Enabled(s, step)
  {
    match step
    case Net(net) => s.(net := D.Apply(s.net, net))
    case Progress(text, breaks) => s.(net := EmitOn(s.net, D.Note(text), breaks))
    case Advance => s.(row := s.row.(status := Running))
    case Compute(result) => s.(phase := Computed, row := s.row.(result := Some(result), digest := Some(hash(result))))
    case Save => s.(phase := Saved, disk := s.disk.(saved := FileOf(s.row.result)))
    case Announce(breaks) =>
      Ended(s, D.Completed(if s.row.digest.Some? then s.row.digest.value else ""), breaks, Announced)
    case Conclude => s.(row := Concluded(s.row), phase := if s.row.cancel then Failing(Aborted) else Leaving)
    case Raise(end) => s.(phase := Failing(end))
    case Excuse(breaks) => Ended(s, D.Failed(StatusText(s.phase.end)), breaks, Excused(s.phase.end))
    case Settle => s.(row := s.row.(status := s.phase.end), phase := Leaving)
    case Escape => s.(phase := Leaving, escaped := true)
    case Kill => s.(phase := Killed)
    case CloseReporter => s.(phase := Closed, net := D.Next(s.net, D.Close))
    case TestResult => s.(phase := if s.row.result.Some? then Tested else KeptResult)
    case TestFile => s.(phase := if s.disk.saved == Absent then Missing else KeptResult)
    case Capture => s.(phase := Holding(s.row.result))
    case ReplaceFile => s.(phase := KeptResult, disk := s.disk.(saved := FileOf(s.phase.value)))
    case WriteRecord =>
      s.(phase := Recorded, row := s.row.(result := None),
         disk := s.disk.(record := Some(RecordOf(s.row, s.disk, s.net.reporter, s.posting))))
    case PersistFails => s.(phase := Unrecorded, row := s.row.(status := Unknown), unrecorded := true)
    case Finish => s.(phase := Finished, row := s.row.(done := true))
    case Forget => s.(listed := false)
    case PosterEnds(_) => s.(posting := false, disk := Amended(s.disk, s.net.reporter))
    case Cancel => s.(row := Cancelled(s.row), inTime := s.inTime || BeforeCheck(s.phase))
    case Acknowledge(_, _) =>
      s.(row := s.row.(result := None), disk := WithoutResult(s.disk), released := true, late := InWindow(s.phase))
    case AcknowledgeRecord(_, _) => s.(disk := WithoutResult(s.disk), released := true, late := false)
    case Crash => s.(net := D.Next(s.net, D.Crash), phase := Gone, listed := false, posting := false)
    case Restart => s.(net := D.Next(s.net, D.Recover), posting := true)
  }

  function Next(hash: string -> string, s: Session, step: Step): Session {
    if Enabled(s, step) then Apply(hash, s, step) else s
  }

  /** Any interleaving of the steps; those not possible at their turn are skipped. */
  function Play(hash: string -> string, steps: seq<Step>): Session {
    if steps == [] then START else Next(hash, Play(hash, steps[..|steps| - 1]), steps[|steps| - 1])
  }

  // --- How the event stream of a session can end. ---

  datatype Ending =
    | Open | Success(digest: string) | Failure(status: string) | Revoked(digest: string, status: string) | Muddled

  function NextEnding(ending: Ending, body: D.Body): Ending {
    match body
    case Note(_) => if ending.Open? then Open else Muddled
    case Completed(digest) => if ending.Open? then Success(digest) else Muddled
    case Failed(status) =>
      if ending.Open? then Failure(status) else if ending.Success? then Revoked(ending.digest, status) else Muddled
  }

  /** Notes, then possibly a completion, then possibly an error; anything else is muddled. */
  function EndingOf(events: seq<D.Event>): Ending {
    if events == [] then Open else NextEnding(EndingOf(events[..|events| - 1]), events[|events| - 1].body)
  }

  lemma EndingSnoc(events: seq<D.Event>, e: D.Event)
    ensures EndingOf(events + [e]) == NextEnding(EndingOf(events), e.body)
  {
    assert (events + [e])[..|events|] == events;
  }

  predicate Announces(ending: Ending) {
    ending.Success? || ending.Revoked?
  }

  predicate Excuses(ending: Ending, end: Status) {
    (ending.Failure? || ending.Revoked?) && ending.status == StatusText(end)
  }

  // --- What every step keeps, `ending` being that of the events emitted so far. ---

  predicate Alive(s: Session) {
    s.phase != Gone
  }

  predicate ReporterOpen(phase: Phase) {
    BeforeEnd(phase) || phase == Leaving || phase == Killed
  }

  ghost predicate NetFits(s: Session) {
    && (Alive(s) ==> s.net.up && !s.net.recovered)
    && (s.net.up ==> s.net.reporter.closed == !ReporterOpen(s.phase))
    && (!Alive(s) ==> !s.listed)
    && (!s.listed ==> s.phase == Finished || s.phase == Gone)
  }

  predicate EndFits(s: Session, ending: Ending) {
    && ending != Muddled
    && (Alive(s) ==>
          && s.row.final == (if s.row.emissionsClosed then Some(|s.net.emitted|) else None)
          && (ending == Open || s.row.emissionsClosed)
          && (Announces(ending) ==> s.row.digest == Some(ending.digest)))
    && match s.phase
       case Working => ending == Open && !s.row.emissionsClosed
       case Computed => ending == Open && !s.row.emissionsClosed
       case Saved => ending == Open && !s.row.emissionsClosed
       case Announced => ending.Success?
       case Failing(end) =>
         Terminal(end) && end != Completed && (ending == Open || (ending.Success? && s.inTime && end == Aborted))
       case Excused(end) => Terminal(end) && end != Completed && Excuses(ending, end)
       case _ => true
  }

  /** A terminal status says what the events say, and success was not revoked in time. */
  predicate StatusSays(status: Status, ending: Ending, inTime: bool) {
    && (status == Completed ==> ending.Success? && !inTime)
    && (Terminal(status) && status != Completed ==> Excuses(ending, status))
  }

  predicate StatusFits(s: Session, ending: Ending) {
    && (ending.Revoked? ==> s.inTime)
    && (Alive(s) ==>
          && (if s.unrecorded then s.row.status == Unknown else StatusSays(s.row.status, ending, s.inTime))
          && (s.inTime ==> s.row.cancel)
          && (BeforeCheck(s.phase) && s.row.cancel ==> s.inTime)
          && (s.row.done <==> s.phase == Finished)
          && (BeforeEnd(s.phase) ==> !Terminal(s.row.status))
          && (!BeforeEnd(s.phase) && !s.escaped ==> Terminal(s.row.status) && ending != Open))
  }

  ghost predicate ResultFits(hash: string -> string, s: Session, ending: Ending) {
    && (Alive(s) && s.row.result.Some? ==> s.row.digest == Some(hash(s.row.result.value)))
    && (s.phase == Computed || s.phase == Saved ==> s.row.result.Some?)
    && (s.phase == Saved ==> s.disk.saved == FileOf(s.row.result))
    && (Announces(ending) && !s.released ==> s.disk.saved.Result? && hash(s.disk.saved.text) == ending.digest)
    && (s.phase == Recorded || (s.phase == Finished && !s.unrecorded) ==> s.row.result == None)
    && (s.phase == Missing || s.phase.Holding? ==> s.disk.saved == Absent)
  }

  /** After a release the file is back exactly if that came in the window and the write behind it. */
  predicate FileFits(s: Session) {
    && (s.late ==> !ReporterOpen(s.phase) && s.phase != Closed)
    && (s.released ==>
          && (Alive(s) ==> s.row.result == None)
          && (InWindow(s.phase) ==> s.late && s.disk.saved == Absent)
          && (if s.late then (s.phase == KeptResult || s.disk.record.Some? ==> s.disk.saved != Absent)
              else s.disk.saved == Absent))
  }

  predicate RecordSays(s: Session, record: Record, ending: Ending) {
    && (record.final.Some? ==> record.final.value == |s.net.emitted|)
    && (record.final == None ==> ending == Open)
    && (Announces(ending) ==> record.digest == Some(ending.digest))
    && StatusSays(record.status, ending, s.inTime)
    && (!s.escaped ==> Terminal(record.status))
    && record.acked <= |s.net.store|
    && (record.streamClosed ==> D.LastBreaks(s.net.emitted) || s.net.store == s.net.emitted)
  }

  predicate RecordFits(s: Session, ending: Ending) {
    && (s.disk.record.Some? ==> RecordSays(s, s.disk.record.value, ending))
    && (s.disk.record.Some? ==> (s.phase == Recorded || s.phase == Finished || s.phase == Gone) && !s.unrecorded)
    && (s.phase == Recorded || (s.phase == Finished && !s.unrecorded) ==> s.disk.record.Some?)
    && (s.unrecorded ==> s.phase == Unrecorded || s.phase == Finished || s.phase == Gone)
    && (s.phase == Unrecorded ==> s.unrecorded)
  }

  predicate ReleaseFits(s: Session) {
    s.released ==>
      && !ReporterOpen(s.phase)
      && (s.net.store == s.net.emitted
          || (s.disk.record.Some? && s.disk.record.value.final == None && D.LastBreaks(s.net.emitted))
          || (s.escaped && s.unrecorded))
  }

  /** Network, events and status. */
  ghost predicate EventsFit(s: Session, ending: Ending) {
    D.Inv(s.net) && NetFits(s) && EndFits(s, ending) && StatusFits(s, ending)
  }

  /** Result, record and release. */
  ghost predicate FilesFit(hash: string -> string, s: Session, ending: Ending) {
    ResultFits(hash, s, ending) && FileFits(s) && RecordFits(s, ending) && ReleaseFits(s)
  }

  ghost predicate Fits(hash: string -> string, s: Session, ending: Ending) {
    EventsFit(s, ending) && FilesFit(hash, s, ending)
  }

  ghost predicate Inv(hash: string -> string, s: Session) {
    forall ending :: ending == EndingOf(s.net.emitted) ==> Fits(hash, s, ending)
  }

  lemma InvFits(hash: string -> string, s: Session)
    requires Inv(hash, s)
    ensures Fits(hash, s, EndingOf(s.net.emitted))
  {
  }

  /** What a step of the network leaves alone. */
  ghost predicate NetMoved(net: D.World, next: D.World) {
    && D.Inv(next)
    && next.emitted == net.emitted && net.store <= next.store
    && next.up == net.up && next.recovered == net.recovered
    && next.reporter.closed == net.reporter.closed
  }

  lemma NetMoves(net: D.World, step: D.Step)
    requires D.Inv(net) && D.Enabled(net, step)
    requires ByPoster(step) || step.Deliver? || step.Delete?
    ensures NetMoved(net, D.Apply(net, step))
  {
    D.StepKeeps(net, step);
  }

  lemma NetFitsOn(hash: string -> string, s: Session, net: D.World, ending: Ending)
    requires Fits(hash, s, ending) && NetMoved(s.net, net)
    ensures Fits(hash, s.(net := net), ending)
  {
    assert net.store <= net.emitted;
  }

  ghost predicate HasEmitted(net: D.World, body: D.Body, breaks: bool, next: D.World) {
    && D.Inv(next)
    && next.emitted == net.emitted + [D.Event(|net.emitted| + 1, body, breaks)]
    && net.store == next.store
    && next.up && next.recovered == net.recovered && !next.reporter.closed
  }

  lemma EmitMoves(net: D.World, body: D.Body, breaks: bool)
    requires D.Inv(net) && net.up && !net.recovered && !net.reporter.closed
    ensures HasEmitted(net, body, breaks, EmitOn(net, body, breaks))
    ensures net.reporter.sequence == |net.emitted|
  {
    D.StepKeeps(net, D.Emit(body, breaks));
  }

  lemma SilentEmit(net: D.World, body: D.Body, breaks: bool)
    requires net.up && net.reporter.closed
    ensures EmitOn(net, body, breaks) == net
  {
  }

  lemma ProgressFits(hash: string -> string, s: Session, text: string, breaks: bool, net: D.World)
    requires Fits(hash, s, Open) && Enabled(s, Progress(text, breaks)) && ReporterOpen(s.phase)
    requires HasEmitted(s.net, D.Note(text), breaks, net)
    ensures Fits(hash, s.(net := net), Open)
  {
  }

  lemma AnnounceFits(hash: string -> string, s: Session, breaks: bool, digest: string, net: D.World)
    requires Fits(hash, s, Open) && Enabled(s, Announce(breaks)) && s.row.digest == Some(digest)
    requires HasEmitted(s.net, D.Completed(digest), breaks, net)
    ensures Fits(hash, s.(net := net, phase := Announced, row := s.row.(
                   emissionsClosed := true, final := Some(|s.net.emitted| + 1))), Success(digest))
  {
  }

  lemma ExcuseFits(hash: string -> string, s: Session, ending: Ending, breaks: bool, net: D.World)
    requires Fits(hash, s, ending) && Enabled(s, Excuse(breaks))
    requires HasEmitted(s.net, D.Failed(StatusText(s.phase.end)), breaks, net)
    ensures Fits(hash, s.(net := net, phase := Excused(s.phase.end), row := s.row.(
                   emissionsClosed := true, final := Some(|s.net.emitted| + 1))),
                 NextEnding(ending, D.Failed(StatusText(s.phase.end))))
  {
  }

  lemma EndingMoves(net: D.World, body: D.Body, breaks: bool, next: D.World)
    requires HasEmitted(net, body, breaks, next)
    ensures EndingOf(next.emitted) == NextEnding(EndingOf(net.emitted), body)
  {
    EndingSnoc(net.emitted, D.Event(|net.emitted| + 1, body, breaks));
  }

  /** The run's own steps, up to the point where it leaves for good. */
  predicate Advancing(step: Step) {
    step.Advance? || step.Compute? || step.Save? || step.Raise? || step.Kill?
  }

  lemma WorkFits(hash: string -> string, s: Session, step: Step, ending: Ending)
    requires Fits(hash, s, ending) && Enabled(s, step) && Advancing(step)
    ensures Fits(hash, Apply(hash, s, step), ending)
  {
    match step
    case Advance =>
    case Compute(_) =>
    case Save =>
    case Raise(_) =>
    case Kill =>
  }

  lemma ConcludeFits(hash: string -> string, s: Session, ending: Ending)
    requires Fits(hash, s, ending) && Enabled(s, Conclude)
    ensures Fits(hash, Apply(hash, s, Conclude), ending)
  {
  }

  lemma SettleFits(hash: string -> string, s: Session, ending: Ending)
    requires Fits(hash, s, ending) && Enabled(s, Settle)
    ensures Fits(hash, Apply(hash, s, Settle), ending)
  {
  }

  predicate Departing(step: Step) {
    step.Finish? || step.Forget?
  }

  lemma EscapeFits(hash: string -> string, s: Session, ending: Ending)
    requires Fits(hash, s, ending) && Enabled(s, Escape)
    ensures Fits(hash, Apply(hash, s, Escape), ending)
  {
  }

  lemma DepartFits(hash: string -> string, s: Session, step: Step, ending: Ending)
    requires Fits(hash, s, ending) && Enabled(s, step) && Departing(step)
    ensures Fits(hash, Apply(hash, s, step), ending)
  {
    if step.Finish? {
      FinishFits(hash, s, ending);
    } else {
      ForgetFits(hash, s, ending);
    }
  }

  lemma FinishFits(hash: string -> string, s: Session, ending: Ending)
    requires Fits(hash, s, ending) && Enabled(s, Finish)
    ensures Fits(hash, s.(phase := Finished, row := s.row.(done := true)), ending)
  {
  }

  lemma ForgetFits(hash: string -> string, s: Session, ending: Ending)
    requires Fits(hash, s, ending) && Enabled(s, Forget)
    ensures Fits(hash, s.(listed := false), ending)
  {
  }

  predicate Persisting(step: Step) {
    step.TestResult? || step.TestFile? || step.Capture?
  }

  lemma TestResultFits(hash: string -> string, s: Session, ending: Ending)
    requires Fits(hash, s, ending) && Enabled(s, TestResult)
    ensures Fits(hash, Apply(hash, s, TestResult), ending)
  {
  }

  lemma TestFileFits(hash: string -> string, s: Session, ending: Ending)
    requires Fits(hash, s, ending) && Enabled(s, TestFile)
    ensures Fits(hash, Apply(hash, s, TestFile), ending)
  {
  }

  lemma CaptureFits(hash: string -> string, s: Session, ending: Ending)
    requires Fits(hash, s, ending) && Enabled(s, Capture)
    ensures Fits(hash, Apply(hash, s, Capture), ending)
  {
  }

  lemma PersistFits(hash: string -> string, s: Session, step: Step, ending: Ending)
    requires Fits(hash, s, ending) && Enabled(s, step) && Persisting(step)
    ensures forall e :: e == ending ==> Fits(hash, Apply(hash, s, step), e)
  {
    if step.TestResult? {
      TestResultFits(hash, s, ending);
    } else if step.TestFile? {
      TestFileFits(hash, s, ending);
    } else {
      CaptureFits(hash, s, ending);
    }
  }

  lemma ReplaceFits(hash: string -> string, s: Session, ending: Ending)
    requires Fits(hash, s, ending) && Enabled(s, ReplaceFile)
    ensures Fits(hash, Apply(hash, s, ReplaceFile), ending)
  {
  }

  lemma FailFits(hash: string -> string, s: Session, ending: Ending)
    requires Fits(hash, s, ending) && Enabled(s, PersistFails)
    ensures Fits(hash, Apply(hash, s, PersistFails), ending)
  {
  }

  lemma CancelFits(hash: string -> string, s: Session, ending: Ending)
    requires Fits(hash, s, ending) && Enabled(s, Cancel)
    ensures Fits(hash, Apply(hash, s, Cancel), ending)
  {
    CancelEventsFit(s, ending);
    CancelFilesFit(hash, s, ending);
  }

  function AfterCancel(s: Session): Session {
    s.(row := Cancelled(s.row), inTime := s.inTime || BeforeCheck(s.phase))
  }

  lemma CancelEventsFit(s: Session, ending: Ending)
    requires EventsFit(s, ending) && Alive(s)
    ensures EventsFit(AfterCancel(s), ending)
  {
  }

  lemma CancelFilesFit(hash: string -> string, s: Session, ending: Ending)
    requires Fits(hash, s, ending) && Alive(s)
    ensures FilesFit(hash, AfterCancel(s), ending)
  {
  }

  lemma CloseFits(hash: string -> string, s: Session, ending: Ending)
    requires Fits(hash, s, ending) && Enabled(s, CloseReporter)
    ensures Fits(hash, Apply(hash, s, CloseReporter), ending)
  {
    D.StepKeeps(s.net, D.Close);
  }

  /** A closed reporter with nothing left to post has delivered everything, but for broken lines. */
  lemma DrainedFits(net: D.World)
    requires D.Inv(net) && net.up && net.reporter.closed
    ensures net.reporter.acked <= |net.store|
    ensures net.reporter.queue == [] ==> D.LastBreaks(net.emitted) || net.store == net.emitted
  {
    if net.reporter.queue == [] && !D.LastBreaks(net.emitted) {
      D.DeleteFits(net);
    }
  }

  lemma RecordingFits(hash: string -> string, s: Session, ending: Ending)
    requires Fits(hash, s, ending) && Enabled(s, WriteRecord)
    ensures Fits(hash, Apply(hash, s, WriteRecord), ending)
  {
    DrainedFits(s.net);
  }

  /** Only the record on disk changes, and what it says still holds. */
  lemma DiskFits(hash: string -> string, s: Session, ending: Ending, record: Record, posting: bool)
    requires Fits(hash, s, ending) && s.disk.record.Some? && RecordSays(s, record, ending)
    requires record.final == s.disk.record.value.final
    ensures Fits(hash, s.(posting := posting, disk := s.disk.(record := Some(record))), ending)
  {
  }

  lemma PosterGoneFits(hash: string -> string, s: Session, ending: Ending)
    requires Fits(hash, s, ending)
    ensures Fits(hash, s.(posting := false), ending)
  {
  }

  lemma AmendedSays(s: Session, ending: Ending, record: Record)
    requires EventsFit(s, ending) && RecordSays(s, record, ending) && s.net.up
    requires s.net.reporter.closed
    ensures RecordSays(s, record.(acked := s.net.reporter.acked, streamClosed := s.net.reporter.queue == []), ending)
  {
    DrainedFits(s.net);
  }

  lemma RecordedIsClosed(hash: string -> string, s: Session, ending: Ending)
    requires Fits(hash, s, ending) && s.disk.record.Some? && s.net.up
    ensures s.net.reporter.closed
  {
  }

  lemma PosterIs(hash: string -> string, s: Session, expired: bool)
    requires Enabled(s, PosterEnds(expired))
    ensures Apply(hash, s, PosterEnds(expired))
         == if s.disk.record.None? then s.(posting := false)
            else s.(posting := false,
                    disk := s.disk.(record := Some(s.disk.record.value.(
                      acked := s.net.reporter.acked,
                      streamClosed := s.net.reporter.closed && s.net.reporter.queue == []))))
  {
  }

  lemma PosterFits(hash: string -> string, s: Session, ending: Ending, expired: bool)
    requires Fits(hash, s, ending) && Enabled(s, PosterEnds(expired))
    ensures Fits(hash, Apply(hash, s, PosterEnds(expired)), ending)
  {
    PosterIs(hash, s, expired);
    if s.disk.record.Some? {
      RecordedIsClosed(hash, s, ending);
      AmendedSays(s, ending, s.disk.record.value);
      DiskFits(hash, s, ending, Amended(s.disk, s.net.reporter).record.value, false);
    } else {
      PosterGoneFits(hash, s, ending);
    }
  }

  lemma AcknowledgeFits(hash: string -> string, s: Session, ending: Ending, digest: Option<string>, final: Option<nat>)
    requires Fits(hash, s, ending) && Enabled(s, Acknowledge(digest, final))
    ensures Fits(hash, Apply(hash, s, Acknowledge(digest, final)), ending)
  {
    DrainedFits(s.net);
  }

  lemma AcknowledgedRecordFits(hash: string -> string, s: Session, ending: Ending)
    requires Fits(hash, s, ending) && s.disk.record.Some? && !s.listed
    requires s.net.store == s.net.emitted
          || (s.disk.record.value.final == None && D.LastBreaks(s.net.emitted))
    ensures Fits(hash, s.(disk := s.disk.(saved := Absent), released := true, late := false), ending)
  {
    ReleasedEventsFit(s, ending);
    ReleasedFilesFit(hash, s, ending);
  }

  lemma ReleasedEventsFit(s: Session, ending: Ending)
    requires EventsFit(s, ending)
    ensures EventsFit(s.(disk := s.disk.(saved := Absent), released := true, late := false), ending)
  {
  }

  lemma ReleasedFilesFit(hash: string -> string, s: Session, ending: Ending)
    requires Fits(hash, s, ending) && s.disk.record.Some? && !s.listed
    requires s.net.store == s.net.emitted
          || (s.disk.record.value.final == None && D.LastBreaks(s.net.emitted))
    ensures FilesFit(hash, s.(disk := s.disk.(saved := Absent), released := true, late := false), ending)
  {
  }

  lemma RecordIsDelivered(
      hash: string -> string, s: Session, ending: Ending, digest: Option<string>, final: Option<nat>)
    requires Fits(hash, s, ending) && Enabled(s, AcknowledgeRecord(digest, final))
    ensures s.net.store == s.net.emitted
         || (s.disk.record.value.final == None && D.LastBreaks(s.net.emitted))
  {
  }

  lemma AcknowledgeRecordFits(
      hash: string -> string, s: Session, ending: Ending, digest: Option<string>, final: Option<nat>)
    requires Fits(hash, s, ending) && Enabled(s, AcknowledgeRecord(digest, final))
    ensures Fits(hash, Apply(hash, s, AcknowledgeRecord(digest, final)), ending)
  {
    RecordIsDelivered(hash, s, ending, digest, final);
    AcknowledgedRecordFits(hash, s, ending);
    var cleared := s.(disk := s.disk.(saved := Absent), released := true, late := false);
    DiskFits(hash, cleared, ending, s.disk.record.value.(available := false), s.posting);
  }

  ghost predicate Died(net: D.World, next: D.World) {
    D.Inv(next) && next.emitted == net.emitted && next.store == net.store && !next.up
  }

  lemma CrashMoves(net: D.World)
    requires D.Inv(net) && net.up
    ensures Died(net, D.Next(net, D.Crash))
  {
    D.StepKeeps(net, D.Crash);
  }

  lemma DownFits(hash: string -> string, s: Session, ending: Ending, net: D.World)
    requires Fits(hash, s, ending) && Died(s.net, net)
    ensures Fits(hash, AfterCrash(s, net), ending)
  {
    DownEventsFit(s, ending, net);
    DownFilesFit(hash, s, ending, net);
  }

  function AfterCrash(s: Session, net: D.World): Session {
    s.(net := net, phase := Gone, listed := false, posting := false)
  }

  lemma DownEventsFit(s: Session, ending: Ending, net: D.World)
    requires EventsFit(s, ending) && Died(s.net, net)
    ensures EventsFit(AfterCrash(s, net), ending)
  {
  }

  lemma DownFilesFit(hash: string -> string, s: Session, ending: Ending, net: D.World)
    requires FilesFit(hash, s, ending) && Died(s.net, net)
    ensures FilesFit(hash, AfterCrash(s, net), ending)
  {
  }

  lemma CrashFits(hash: string -> string, s: Session, ending: Ending)
    requires Fits(hash, s, ending) && Enabled(s, Crash)
    ensures Fits(hash, Apply(hash, s, Crash), ending)
  {
    CrashMoves(s.net);
    DownFits(hash, s, ending, D.Next(s.net, D.Crash));
  }

  ghost predicate CameBack(net: D.World, next: D.World) {
    && D.Inv(next) && next.emitted == net.emitted && next.store == net.store
    && next.up && next.recovered && next.reporter.closed
  }

  lemma RestartMoves(net: D.World)
    requires D.Inv(net) && !net.up && net.reporter.spool.present
    ensures CameBack(net, D.Next(net, D.Recover))
  {
    D.StepKeeps(net, D.Recover);
  }

  lemma BackFits(hash: string -> string, s: Session, ending: Ending, net: D.World)
    requires Fits(hash, s, ending) && !s.net.up && CameBack(s.net, net)
    ensures Fits(hash, s.(net := net, posting := true), ending)
  {
  }

  lemma RestartFits(hash: string -> string, s: Session, ending: Ending)
    requires Fits(hash, s, ending) && Enabled(s, Restart)
    ensures Fits(hash, Apply(hash, s, Restart), ending)
  {
    RestartMoves(s.net);
    BackFits(hash, s, ending, D.Next(s.net, D.Recover));
  }

  lemma ProgressKeeps(hash: string -> string, s: Session, text: string, breaks: bool)
    requires Inv(hash, s) && Enabled(s, Progress(text, breaks))
    ensures Inv(hash, Apply(hash, s, Progress(text, breaks)))
  {
    InvFits(hash, s);
    if ReporterOpen(s.phase) {
      EmitMoves(s.net, D.Note(text), breaks);
      ProgressFits(hash, s, text, breaks, EmitOn(s.net, D.Note(text), breaks));
      EndingMoves(s.net, D.Note(text), breaks, EmitOn(s.net, D.Note(text), breaks));
    } else {
      SilentEmit(s.net, D.Note(text), breaks);
    }
  }

  lemma AnnounceIs(hash: string -> string, s: Session, breaks: bool)
    requires Enabled(s, Announce(breaks)) && s.row.digest.Some?
    requires !s.net.reporter.closed && s.net.reporter.sequence == |s.net.emitted|
    ensures Apply(hash, s, Announce(breaks)) ==
      s.(net := EmitOn(s.net, D.Completed(s.row.digest.value), breaks), phase := Announced,
         row := s.row.(emissionsClosed := true, final := Some(|s.net.emitted| + 1)))
  {
  }

  lemma ExcuseIs(hash: string -> string, s: Session, breaks: bool)
    requires Enabled(s, Excuse(breaks))
    requires !s.net.reporter.closed && s.net.reporter.sequence == |s.net.emitted|
    ensures Apply(hash, s, Excuse(breaks)) ==
      s.(net := EmitOn(s.net, D.Failed(StatusText(s.phase.end)), breaks), phase := Excused(s.phase.end),
         row := s.row.(emissionsClosed := true, final := Some(|s.net.emitted| + 1)))
  {
  }

  lemma AnnounceInv(hash: string -> string, s: Session, breaks: bool, digest: string, net: D.World)
    requires Inv(hash, s) && Enabled(s, Announce(breaks)) && s.row.digest == Some(digest)
    requires HasEmitted(s.net, D.Completed(digest), breaks, net)
    ensures Inv(hash, s.(net := net, phase := Announced, row := s.row.(
                  emissionsClosed := true, final := Some(|s.net.emitted| + 1))))
  {
    InvFits(hash, s);
    AnnounceFits(hash, s, breaks, digest, net);
    EndingMoves(s.net, D.Completed(digest), breaks, net);
  }

  lemma AnnounceKeeps(hash: string -> string, s: Session, breaks: bool)
    requires Inv(hash, s) && Enabled(s, Announce(breaks))
    ensures Inv(hash, Apply(hash, s, Announce(breaks)))
  {
    InvFits(hash, s);
    var digest := s.row.digest.value;
    EmitMoves(s.net, D.Completed(digest), breaks);
    AnnounceInv(hash, s, breaks, digest, EmitOn(s.net, D.Completed(digest), breaks));
    AnnounceIs(hash, s, breaks);
  }

  lemma ExcuseKeeps(hash: string -> string, s: Session, breaks: bool)
    requires Inv(hash, s) && Enabled(s, Excuse(breaks))
    ensures Inv(hash, Apply(hash, s, Excuse(breaks)))
  {
    InvFits(hash, s);
    var body := D.Failed(StatusText(s.phase.end));
    EmitMoves(s.net, body, breaks);
    ExcuseIs(hash, s, breaks);
    ExcuseFits(hash, s, EndingOf(s.net.emitted), breaks, EmitOn(s.net, body, breaks));
    EndingMoves(s.net, body, breaks, EmitOn(s.net, body, breaks));
  }

  predicate Emits(step: Step) {
    step.Progress? || step.Announce? || step.Excuse?
  }

  lemma QuietStep(hash: string -> string, s: Session, step: Step)
    requires D.Inv(s.net) && Enabled(s, step) && !Emits(step)
    ensures Apply(hash, s, step).net.emitted == s.net.emitted
  {
    match step
    case Net(net) => NetMoves(s.net, net);
    case _ =>
  }

  predicate OfRun(step: Step) {
    Advancing(step) || Departing(step) || Persisting(step) || step.Conclude? || step.Settle? || step.Cancel?
    || step.Escape? || step.ReplaceFile? || step.PersistFails?
  }

  lemma RunFits(hash: string -> string, s: Session, step: Step, ending: Ending)
    requires Fits(hash, s, ending) && Enabled(s, step)
    requires step.Cancel? || step.Conclude? || step.Settle? || step.ReplaceFile? || step.PersistFails?
    ensures forall e :: e == ending ==> Fits(hash, Apply(hash, s, step), e)
  {
    if step.Cancel? {
      CancelFits(hash, s, ending);
    } else if step.Conclude? {
      ConcludeFits(hash, s, ending);
    } else if step.Settle? {
      SettleFits(hash, s, ending);
    } else if step.ReplaceFile? {
      ReplaceFits(hash, s, ending);
    } else {
      FailFits(hash, s, ending);
    }
  }

  lemma RunKeeps(hash: string -> string, s: Session, step: Step)
    requires Inv(hash, s) && Enabled(s, step) && OfRun(step)
    ensures Inv(hash, Apply(hash, s, step))
  {
    var ending := EndingOf(s.net.emitted);
    InvFits(hash, s);
    QuietStep(hash, s, step);
    if Advancing(step) {
      WorkFits(hash, s, step, ending);
    } else if Departing(step) {
      DepartFits(hash, s, step, ending);
    } else if Persisting(step) {
      PersistFits(hash, s, step, ending);
    } else if step.Escape? {
      EscapeFits(hash, s, ending);
    } else {
      RunFits(hash, s, step, ending);
    }
  }

  lemma OutsideKeeps(hash: string -> string, s: Session, step: Step)
    requires Inv(hash, s) && Enabled(s, step) && !Emits(step) && !OfRun(step)
    ensures Inv(hash, Apply(hash, s, step))
  {
    var ending := EndingOf(s.net.emitted);
    InvFits(hash, s);
    QuietStep(hash, s, step);
    match step
    case Net(net) =>
      NetMoves(s.net, net);
      NetFitsOn(hash, s, D.Apply(s.net, net), ending);
    case CloseReporter => CloseFits(hash, s, ending);
    case WriteRecord => RecordingFits(hash, s, ending);
    case PosterEnds(expired) => PosterFits(hash, s, ending, expired);
    case Acknowledge(digest, final) => AcknowledgeFits(hash, s, ending, digest, final);
    case AcknowledgeRecord(digest, final) => AcknowledgeRecordFits(hash, s, ending, digest, final);
    case Crash => CrashFits(hash, s, ending);
    case Restart => RestartFits(hash, s, ending);
  }

  lemma StepKeeps(hash: string -> string, s: Session, step: Step)
    requires Inv(hash, s) && Enabled(s, step)
    ensures Inv(hash, Apply(hash, s, step))
  {
    match step
    case Progress(text, breaks) => ProgressKeeps(hash, s, text, breaks);
    case Announce(breaks) => AnnounceKeeps(hash, s, breaks);
    case Excuse(breaks) => ExcuseKeeps(hash, s, breaks);
    case _ =>
      if OfRun(step) {
        RunKeeps(hash, s, step);
      } else {
        OutsideKeeps(hash, s, step);
      }
  }

  lemma {:induction false} Always(hash: string -> string, steps: seq<Step>)
    ensures Inv(hash, Play(hash, steps))
  {
    if steps == [] {
      assert Fits(hash, START, Open);
    } else {
      Always(hash, steps[..|steps| - 1]);
      var s, step := Play(hash, steps[..|steps| - 1]), steps[|steps| - 1];
      if Enabled(s, step) {
        StepKeeps(hash, s, step);
      }
    }
  }

  lemma {:induction false} AlwaysFits(hash: string -> string, steps: seq<Step>)
    ensures Fits(hash, Play(hash, steps), EndingOf(Play(hash, steps).net.emitted))
  {
    Always(hash, steps);
    InvFits(hash, Play(hash, steps));
  }

  // --- The guarantees. ---

  /** The final sequence number, where one was recorded, is the largest ever emitted; without an uncaught
      exception there always is one. */
  lemma {:induction false} FinalIsLast(hash: string -> string, steps: seq<Step>)
    ensures var s := Play(hash, steps);
            && (s.phase != Gone && s.row.final.Some? ==> s.row.final.value == |s.net.emitted|)
            && (s.disk.record.Some? && s.disk.record.value.final.Some? ==>
                  s.disk.record.value.final.value == |s.net.emitted|)
            && (s.disk.record.Some? && !s.escaped ==> s.disk.record.value.final.Some?)
  {
    AlwaysFits(hash, steps);
  }

  /** A live session is acknowledged only when the server has every event, and only by its final number
      and the digest it announced; except that one without a final number, left behind by an uncaught exception
      and a failed write of its record, has nothing to wait for. */
  lemma {:induction false} AcknowledgedWhenDelivered(
      hash: string -> string, steps: seq<Step>, digest: Option<string>, final: Option<nat>)
    requires Enabled(Play(hash, steps), Acknowledge(digest, final))
    ensures var s := Play(hash, steps);
            && (if final.Some? then final.value == |s.net.emitted| && s.net.store == s.net.emitted
                else s.escaped && s.unrecorded)
            && (Announces(EndingOf(s.net.emitted)) ==> digest == Some(EndingOf(s.net.emitted).digest))
  {
    AlwaysFits(hash, steps);
    DrainedFits(Play(hash, steps).net);
  }

  /** After a restart the same holds, except that a run which announced no end is taken for delivered once
      its queue is empty, and then a broken last line may be missing. */
  lemma {:induction false} RecordAcknowledgedWhenDelivered(
      hash: string -> string, steps: seq<Step>, digest: Option<string>, final: Option<nat>)
    requires Enabled(Play(hash, steps), AcknowledgeRecord(digest, final))
    ensures var s := Play(hash, steps);
            && (s.net.store == s.net.emitted || (final == None && s.escaped && D.LastBreaks(s.net.emitted)))
            && (final.Some? ==> final.value == |s.net.emitted|)
            && (Announces(EndingOf(s.net.emitted)) ==> digest == Some(EndingOf(s.net.emitted).digest))
  {
    AlwaysFits(hash, steps);
  }

  /** So a result is released only after the server has accepted every event. */
  lemma {:induction false} ReleasedMeansDelivered(hash: string -> string, steps: seq<Step>)
    requires Play(hash, steps).released && !Play(hash, steps).escaped
    ensures Play(hash, steps).net.store == Play(hash, steps).net.emitted
  {
    AlwaysFits(hash, steps);
  }

  /** Once the record is written, a released result is on disk again exactly if the last acknowledgement came
      between the unlocked look for the result in memory and the write of its file. */
  lemma {:induction false} ReleasedResultIsBackExactlyWhen(hash: string -> string, steps: seq<Step>)
    requires Play(hash, steps).released
    ensures !Play(hash, steps).late ==> Play(hash, steps).disk.saved == Absent
    ensures Play(hash, steps).disk.record.Some? ==>
              (Play(hash, steps).disk.saved != Absent <==> Play(hash, steps).late)
  {
    AlwaysFits(hash, steps);
  }

  lemma {:induction false} CompletionShows(events: seq<D.Event>, i: nat)
    requires i < |events| && events[i].body.Completed? && EndingOf(events) != Muddled
    ensures Announces(EndingOf(events)) && EndingOf(events).digest == events[i].body.digest
  {
    if i < |events| - 1 {
      CompletionShows(events[..|events| - 1], i);
    }
  }

  /** Once the server has heard of a completion, the result with that digest is on disk, through every
      crash, until it is released. */
  lemma {:induction false} ResultOutlivesCompletion(hash: string -> string, steps: seq<Step>, e: D.Event)
    requires e in Play(hash, steps).net.store && e.body.Completed? && !Play(hash, steps).released
    ensures var saved := Play(hash, steps).disk.saved; saved.Result? && hash(saved.text) == e.body.digest
  {
    var s := Play(hash, steps);
    AlwaysFits(hash, steps);
    var i :| 0 <= i < |s.net.store| && s.net.store[i] == e;
    assert s.net.emitted[i] == e;
    CompletionShows(s.net.emitted, i);
  }

  /** A run cancelled before its last look at the flag is never recorded as completed. */
  lemma {:induction false} CancelledInTimeNeverCompletes(hash: string -> string, steps: seq<Step>)
    requires Play(hash, steps).inTime
    ensures var s := Play(hash, steps);
            && (s.phase != Gone ==> s.row.status != Completed)
            && (s.disk.record.Some? ==> s.disk.record.value.status != Completed)
  {
    AlwaysFits(hash, steps);
  }

  lemma {:induction false} RecordSaysAlways(hash: string -> string, steps: seq<Step>)
    requires Play(hash, steps).disk.record.Some?
    ensures var s := Play(hash, steps);
            var record, ending := s.disk.record.value, EndingOf(s.net.emitted);
            && StatusSays(record.status, ending, s.inTime) && (!s.escaped ==> Terminal(record.status))
            && (Announces(ending) ==> record.digest == Some(ending.digest))
  {
    AlwaysFits(hash, steps);
  }

  lemma LastOfEnding(events: seq<D.Event>)
    requires EndingOf(events) != Open && EndingOf(events) != Muddled
    ensures events != []
    ensures var ending, last := EndingOf(events), events[|events| - 1].body;
            if ending.Success? then last == D.Completed(ending.digest) else last == D.Failed(ending.status)
  {
  }

  /** The recorded status and the last event agree. */
  lemma {:induction false} StatusMatchesLastEvent(hash: string -> string, steps: seq<Step>)
    requires Play(hash, steps).disk.record.Some? && !Play(hash, steps).escaped
    ensures var s := Play(hash, steps);
            var record := s.disk.record.value;
            && s.net.emitted != []
            && (record.status == Completed ==>
                  record.digest.Some? && s.net.emitted[|s.net.emitted| - 1].body == D.Completed(record.digest.value))
            && (record.status != Completed ==>
                  s.net.emitted[|s.net.emitted| - 1].body == D.Failed(StatusText(record.status)))
  {
    RecordSaysAlways(hash, steps);
    LastOfEnding(Play(hash, steps).net.emitted);
  }

  /** Whether an announced completion is taken back depends on one thing: a cancellation before the last locked
      look at the flag. */
  lemma {:induction false} CompletionRevokedExactlyWhen(hash: string -> string, steps: seq<Step>)
    requires Play(hash, steps).disk.record.Some? && !Play(hash, steps).escaped
    requires Announces(EndingOf(Play(hash, steps).net.emitted))
    ensures EndingOf(Play(hash, steps).net.emitted).Revoked? <==> Play(hash, steps).inTime
  {
    AlwaysFits(hash, steps);
  }

  predicate IsEnd(e: D.Event) {
    !e.body.Note?
  }

  lemma {:induction false} EndsComeLast(events: seq<D.Event>, i: nat)
    requires i < |events| && IsEnd(events[i]) && EndingOf(events) != Muddled
    ensures i == |events| - 1
         || (i == |events| - 2 && events[i].body.Completed? && events[i + 1].body.Failed?)
    ensures EndingOf(events) != Open
    ensures i < |events| - 1 ==> EndingOf(events).Revoked?
  {
    if i < |events| - 1 {
      EndsComeLast(events[..|events| - 1], i);
    }
  }

  /** A session ends its stream once, or announces a completion and takes it back in the very next event. */
  lemma {:induction false} TerminalEventsComeLast(hash: string -> string, steps: seq<Step>, i: nat)
    requires i < |Play(hash, steps).net.emitted| && IsEnd(Play(hash, steps).net.emitted[i])
    ensures var events := Play(hash, steps).net.emitted;
            i == |events| - 1 || (i == |events| - 2 && events[i].body.Completed? && events[i + 1].body.Failed?)
  {
    AlwaysFits(hash, steps);
    EndsComeLast(Play(hash, steps).net.emitted, i);
  }

  lemma {:induction false} PlaySnoc(hash: string -> string, steps: seq<Step>, step: Step)
    ensures Play(hash, steps + [step]) == Next(hash, Play(hash, steps), step)
  {
    assert (steps + [step])[..|steps|] == steps;
  }

  lemma AnnouncedThenCancelled(hash: string -> string, s: Session, digest: string)
    requires Inv(hash, s) && s.phase == Saved && s.row.digest == Some(digest) && s.listed
    ensures var next := Next(hash, Next(hash, s, Announce(false)), Cancel);
            && next.phase == Announced && next.row.cancel && Inv(hash, next)
            && EndingOf(next.net.emitted) == Success(digest)
  {
    InvFits(hash, s);
    EmitMoves(s.net, D.Completed(digest), false);
    EndingMoves(s.net, D.Completed(digest), false, EmitOn(s.net, D.Completed(digest), false));
    AnnounceKeeps(hash, s, false);
    AnnounceIs(hash, s, false);
    var next := Next(hash, s, Announce(false));
    InvFits(hash, next);
    CancelFits(hash, next, EndingOf(next.net.emitted));
  }

  lemma CancelledThenExcused(hash: string -> string, s: Session)
    requires Inv(hash, s) && s.phase == Announced && s.row.cancel && EndingOf(s.net.emitted).Success?
    ensures var next := Next(hash, Next(hash, s, Conclude), Excuse(false));
            EndingOf(next.net.emitted) == Revoked(EndingOf(s.net.emitted).digest, "aborted")
  {
    InvFits(hash, s);
    ConcludeFits(hash, s, EndingOf(s.net.emitted));
    var next := Next(hash, s, Conclude);
    var body := D.Failed("aborted");
    EmitMoves(next.net, body, false);
    EndingMoves(next.net, body, false, EmitOn(next.net, body, false));
    ExcuseIs(hash, next, false);
  }

  lemma {:induction false} PlayTwo(hash: string -> string, steps: seq<Step>, a: Step, b: Step)
    ensures Play(hash, steps + [a, b]) == Next(hash, Next(hash, Play(hash, steps), a), b)
  {
    PlaySnoc(hash, steps, a);
    PlaySnoc(hash, steps + [a], b);
    assert steps + [a] + [b] == steps + [a, b];
  }

  lemma SavedAt(hash: string -> string, result: string)
    ensures var s := Play(hash, [Compute(result), Save]);
            s.phase == Saved && s.row.digest == Some(hash(result)) && s.listed
  {
    PlayTwo(hash, [], Compute(result), Save);
    assert [] + [Compute(result), Save] == [Compute(result), Save];
  }

  lemma {:induction false} RevokedFrom(hash: string -> string, steps: seq<Step>, digest: string)
    requires Play(hash, steps).phase == Saved && Play(hash, steps).listed
    requires Play(hash, steps).row.digest == Some(digest)
    ensures EndingOf(Play(hash, steps + [Announce(false), Cancel] + [Conclude, Excuse(false)]).net.emitted)
         == Revoked(digest, "aborted")
  {
    Always(hash, steps);
    AnnouncedThenCancelled(hash, Play(hash, steps), digest);
    PlayTwo(hash, steps, Announce(false), Cancel);
    var next := steps + [Announce(false), Cancel];
    CancelledThenExcused(hash, Play(hash, next));
    PlayTwo(hash, next, Conclude, Excuse(false));
  }

  /** The second case does happen: a cancellation between the announcement and the last look at the flag. */
  lemma CompletionCanBeRevoked(hash: string -> string, result: string)
    ensures exists steps :: EndingOf(Play(hash, steps).net.emitted) == Revoked(hash(result), "aborted")
  {
    SavedAt(hash, result);
    RevokedFrom(hash, [Compute(result), Save], hash(result));
  }
}
