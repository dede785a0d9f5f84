/** What a restart of the executor loses for good, what that blocks, and exactly when the server can still get every
    event and the spool can still go. */
module EventRecovery {
  import opened EventDelivery

  // --- What is read back. ---

  lemma {:induction false} QueuedExactlyWhen(lines: seq<Event>, cursor: nat, e: Event)
    ensures e in Backlog(false, lines, cursor) <==> e in lines && !e.breaks && e.number > cursor
    decreases |lines|
  {
    if lines != [] {
      var front, last := lines[..|lines| - 1], lines[|lines| - 1];
      QueuedExactlyWhen(front, cursor, e);
      assert lines == front + [last];
    }
  }

  lemma {:induction false} QueueIsSorted(lines: seq<Event>, cursor: nat, i: nat, j: nat)
    requires Numbered(lines) && i < j < |Backlog(false, lines, cursor)|
    ensures Backlog(false, lines, cursor)[i].number < Backlog(false, lines, cursor)[j].number
    decreases |lines|
  {
    var front, last := lines[..|lines| - 1], lines[|lines| - 1];
    BacklogHolds(false, front, cursor);
    if j < |Backlog(false, front, cursor)| {
      QueueIsSorted(front, cursor, i, j);
    }
  }

  /** A reporter that finds a spool queues exactly the readable events behind the cursor, in order, goes on from the
      cursor, and counts on from the last event it can read. */
  lemma OpenedReads(spool: Spool, recover: bool, e: Event, i: nat, j: nat)
    requires Numbered(spool.lines) && spool.cursor <= |spool.lines|
    ensures var r := Opened(spool, recover);
            && (e in r.queue <==> e in spool.lines && !e.breaks && e.number > spool.cursor)
            && (i < j < |r.queue| ==> r.queue[i].number < r.queue[j].number)
            && r.acked == spool.cursor && r.closed == recover && r.spool.lines == spool.lines
            && (e in spool.lines && !e.breaks ==> e.number <= r.sequence)
            && (r.sequence > 0 ==> r.sequence <= |spool.lines| && !spool.lines[r.sequence - 1].breaks)
  {
    QueuedExactlyWhen(spool.lines, spool.cursor, e);
    if i < j < |Opened(spool, recover).queue| {
      QueueIsSorted(spool.lines, spool.cursor, i, j);
    }
    LastReadableHolds(spool.lines);
    if e in spool.lines && !e.breaks {
      ReadableIsCounted(spool.lines, e);
    }
  }

  // --- Stranded events. ---

  /** A broken line that only the spool holds: the event is not with the server and in no batch under way. */
  ghost predicate Unsent(w: World, e: Event) {
    && e in w.emitted && e.breaks && |w.store| < e.number
    && forall posted :: posted in w.wire ==> e !in posted
  }

  /** And no memory holds it either: the executor is down, or was restarted. */
  ghost predicate Stranded(w: World, e: Event) {
    (w.recovered || !w.up) && Unsent(w, e)
  }

  lemma StrandedAtTake(w: World, e: Event)
    requires Inv(w) && Stranded(w, e) && Enabled(w, Take)
    ensures Stranded(Next(w, Take), e)
  {
    DroppedIsNotQueued(w.emitted, w.reporter.spool.cursor, e);
    assert e !in Batch(w.reporter);
  }

  lemma StrandedAtDelivery(w: World, posted: seq<Event>, refused: bool, heard: bool, e: Event)
    requires Inv(w) && Stranded(w, e) && posted in w.wire
    ensures Stranded(Next(w, Deliver(posted, refused, heard)), e)
  {
    forall f | f in posted
      ensures f.number != e.number
    {
      assert FromEmitted(posted, w.emitted);
    }
    if Answered(w.store, posted).Accepted? {
      UnknownIsNotPassed(w.store, posted, w.emitted, e.number);
    }
  }

  lemma StrandedAtStep(w: World, step: Step, e: Event)
    requires Inv(w) && Stranded(w, e)
    ensures Stranded(Next(w, step), e) && Next(w, step).emitted == w.emitted
  {
    if Enabled(w, step) {
      match step
      case Take => StrandedAtTake(w, e);
      case Deliver(posted, refused, heard) => StrandedAtDelivery(w, posted, refused, heard, e);
      case _ =>
    }
  }

  lemma {:induction false} PlayMore(steps: seq<Step>, more: seq<Step>)
    requires more != []
    ensures Play(steps + more) == Next(Play(steps + more[..|more| - 1]), more[|more| - 1])
  {
    assert (steps + more)[..|steps + more| - 1] == steps + more[..|more| - 1];
  }

  /** A stranded event never reaches the server, whatever happens afterwards, and nothing new is emitted. */
  lemma {:induction false} StrandedStays(steps: seq<Step>, e: Event, more: seq<Step>)
    requires Stranded(Play(steps), e)
    ensures Stranded(Play(steps + more), e) && |Play(steps + more).store| < e.number
    ensures Play(steps + more).emitted == Play(steps).emitted
    decreases |more|
  {
    if more == [] {
      assert steps + more == steps;
    } else {
      var front := more[..|more| - 1];
      StrandedStays(steps, e, front);
      Always(steps + front);
      StrandedAtStep(Play(steps + front), more[|more| - 1], e);
      PlayMore(steps, more);
    }
  }

  lemma QueueIsNeverEmpty(w: World, e: Event)
    requires Inv(w) && Settled(w) && Stranded(w, e) && e.number < LastReadable(w.emitted)
    ensures w.reporter.spool.present && (w.up ==> w.reporter.queue != [])
  {
    ReadableIsQueued(w.emitted, w.reporter.spool.cursor);
    BacklogLoses(w.emitted, w.reporter.spool.cursor);
  }

  /** If a readable line follows it, no restart, no network and no patience helps: the queue never empties and the
      spool is never deleted. */
  lemma {:induction false} StrandedBlocksForGood(steps: seq<Step>, e: Event, more: seq<Step>)
    requires Stranded(Play(steps), e) && e.number < LastReadable(Play(steps).emitted)
    ensures var w := Play(steps + more);
            w.reporter.spool.present && (w.up ==> w.reporter.queue != []) && |w.store| < e.number
  {
    StrandedStays(steps, e, more);
    Always(steps + more);
    AlwaysSettled(steps + more);
    QueueIsNeverEmpty(Play(steps + more), e);
  }

  // --- Batches under way that hold a broken line. ---

  ghost predicate Plain(posted: seq<Event>) {
    forall e :: e in posted ==> !e.breaks
  }

  /** Posted from memory: a stretch that starts no later than where the server is. */
  ghost predicate Stretch(posted: seq<Event>, emitted: seq<Event>, known: nat) {
    && posted != [] && 1 <= posted[0].number <= known + 1
    && posted[0].number - 1 + |posted| <= |emitted|
    && posted == emitted[posted[0].number - 1..posted[0].number - 1 + |posted|]
  }

  ghost predicate WireFits(w: World) {
    forall posted :: posted in w.wire ==> Plain(posted) || Stretch(posted, w.emitted, |w.store|)
  }

  lemma StretchGrows(posted: seq<Event>, emitted: seq<Event>, known: nat, more: seq<Event>, further: nat)
    requires Stretch(posted, emitted, known) && emitted <= more && known <= further
    ensures Stretch(posted, more, further)
  {
  }

  lemma ReadIsPlain(emitted: seq<Event>, cursor: nat, batch: seq<Event>)
    requires batch <= Backlog(false, emitted, cursor)
    ensures Plain(batch)
  {
    ReadableIsQueued(emitted, cursor);
  }

  lemma QueuedIsStretch(emitted: seq<Event>, cursor: nat, known: nat, batch: seq<Event>)
    requires Numbered(emitted) && cursor <= known && cursor <= |emitted|
    requires batch != [] && batch <= Backlog(true, emitted, cursor)
    ensures Stretch(batch, emitted, known)
  {
    WholeBacklog(emitted, cursor);
    assert batch == emitted[cursor..cursor + |batch|];
    assert batch[0] == emitted[cursor];
  }

  lemma TakenFits(w: World)
    requires Inv(w) && Enabled(w, Take)
    ensures Plain(Batch(w.reporter)) || Stretch(Batch(w.reporter), w.emitted, |w.store|)
  {
    if w.recovered {
      ReadIsPlain(w.emitted, w.reporter.spool.cursor, Batch(w.reporter));
    } else {
      QueuedIsStretch(w.emitted, w.reporter.spool.cursor, |w.store|, Batch(w.reporter));
    }
  }

  lemma StepKeepsWire(w: World, step: Step)
    requires Inv(w) && WireFits(w)
    ensures WireFits(Next(w, step))
  {
    var next := Next(w, step);
    StepKeeps(w, step);
    if step.Take? && Enabled(w, step) {
      TakenFits(w);
    }
    forall posted | posted in next.wire && !Plain(posted)
      ensures Stretch(posted, next.emitted, |next.store|)
    {
      StretchGrows(posted, w.emitted, |w.store|, next.emitted, |next.store|);
    }
  }

  lemma {:induction false} AlwaysWire(steps: seq<Step>)
    ensures WireFits(Play(steps))
  {
    if steps != [] {
      Always(steps[..|steps| - 1]);
      AlwaysWire(steps[..|steps| - 1]);
      StepKeepsWire(Play(steps[..|steps| - 1]), steps[|steps| - 1]);
    }
  }

  lemma InStretch(emitted: seq<Event>, lo: nat, hi: nat, e: Event)
    requires Numbered(emitted) && lo <= hi <= |emitted| && e in emitted[lo..hi]
    ensures e.number <= hi
  {
  }

  lemma StretchArrives(store: seq<Event>, emitted: seq<Event>, lo: nat, hi: nat, e: Event)
    requires Numbered(emitted) && store <= emitted && lo <= hi <= |emitted| && lo <= |store|
    requires e in emitted[lo..hi]
    ensures var answer := Receive(store, emitted[lo..hi]);
            answer.Accepted? && store <= answer.store <= emitted && e.number <= |answer.store|
  {
    StretchIsAccepted(store, emitted, lo, hi);
    InStretch(emitted, lo, hi, e);
  }

  lemma PostedArrives(store: seq<Event>, emitted: seq<Event>, posted: seq<Event>, e: Event)
    requires Numbered(emitted) && store <= emitted && Stretch(posted, emitted, |store|) && e in posted
    ensures var answer := Receive(store, posted);
            answer.Accepted? && store <= answer.store <= emitted && e.number <= |answer.store|
  {
    var lo := posted[0].number - 1;
    var hi := lo + |posted|;
    assert posted == emitted[lo..hi];
    StretchArrives(store, emitted, lo, hi, e);
  }

  lemma UnheardDelivery(w: World, posted: seq<Event>)
    requires posted in w.wire && Answered(w.store, posted).Accepted?
    ensures Next(w, Deliver(posted, false, false)) == w.(store := Answered(w.store, posted).store)
  {
  }

  /** Such a batch can still arrive. */
  lemma ReplayOne(w: World, posted: seq<Event>, e: Event)
    requires Numbered(w.emitted) && w.store <= w.emitted
    requires WireFits(w) && posted in w.wire && 1 <= |posted| <= BATCH && e in posted && e.breaks
    ensures var next := Next(w, Deliver(posted, false, false));
            next == w.(store := next.store) && w.store <= next.store <= w.emitted && e.number <= |next.store|
  {
    PostedArrives(w.store, w.emitted, posted, e);
    UnheardDelivery(w, posted);
  }

  ghost predicate Replayed(w: World) {
    forall e, posted :: e in posted && posted in w.wire && e.breaks ==> e.number <= |w.store|
  }

  lemma {:induction false} ReplayAll(steps: seq<Step>) returns (more: seq<Step>)
    ensures var w, last := Play(steps), Play(steps + more);
            last == w.(store := last.store) && w.store <= last.store && Replayed(last)
    decreases |Play(steps).emitted| - |Play(steps).store|
  {
    if Replayed(Play(steps)) {
      more := [];
      assert steps + more == steps;
    } else {
      var step := ReplayNext(steps);
      var rest := ReplayAll(steps + [step]);
      more := [step] + rest;
      assert steps + [step] + rest == steps + more;
    }
  }

  lemma {:induction false} ReplayNext(steps: seq<Step>) returns (step: Step)
    requires !Replayed(Play(steps))
    ensures var w, next := Play(steps), Play(steps + [step]);
            && next == w.(store := next.store) && w.store <= next.store
            && |w.store| < |next.store| <= |w.emitted|
  {
    var w := Play(steps);
    var e, posted :| e in posted && posted in w.wire && e.breaks && e.number > |w.store|;
    Always(steps);
    AlwaysWire(steps);
    ReplayOne(w, posted, e);
    step := Deliver(posted, false, false);
    PlaySnoc(steps, step);
  }

  // --- Exactly what can still be reached. ---

  /** Restarted if down, and whatever was in flight given up. */
  lemma {:induction false} Collected(steps: seq<Step>) returns (more: seq<Step>)
    requires Play(steps).up || Play(steps).reporter.spool.present
    ensures var w, last := Play(steps), Play(steps + more);
            && last.up && last.batch == [] && last.recovered == (w.recovered || !w.up)
            && last.emitted == w.emitted && last.store == w.store && last.wire == w.wire
  {
    Always(steps);
    more := [if Play(steps).up then Lost else Recover];
    PlaySnoc(steps, more[0]);
    assert more == [more[0]];
  }

  /** No stranded event is followed by a line that a restart can read. */
  ghost predicate Passable(w: World) {
    forall e :: Stranded(w, e) ==> LastReadable(w.emitted) < e.number
  }

  lemma OnlyStrandedRemain(w: World, last: World, e: Event)
    requires last.emitted == w.emitted && last.wire == w.wire && |w.store| <= |last.store| && Replayed(last)
    requires w.recovered || !w.up
    requires e in w.emitted && e.breaks && |last.store| < e.number
    ensures Stranded(w, e)
  {
  }

  lemma PassableIsReady(w: World, last: World)
    requires Passable(w) && last.up && last.batch == [] && last.recovered == (w.recovered || !w.up)
    requires last.emitted == w.emitted && last.wire == w.wire && |w.store| <= |last.store| && Replayed(last)
    ensures Ready(last)
  {
    if last.recovered && Hole(last.store, last.emitted, Goal(last)) {
      var e :| e in last.emitted && e.breaks && |last.store| < e.number < Goal(last);
      OnlyStrandedRemain(w, last, e);
    }
  }

  lemma {:induction false} ReadableIsCounted(events: seq<Event>, e: Event)
    requires e in events && !e.breaks
    ensures e.number <= LastReadable(events)
    decreases |events|
  {
    if e != events[|events| - 1] {
      ReadableIsCounted(events[..|events| - 1], e);
    }
  }

  lemma BehindTheGoal(w: World, last: World, e: Event)
    requires last.recovered == (w.recovered || !w.up) && Numbered(w.emitted)
    requires last.emitted == w.emitted && last.wire == w.wire && |w.store| <= |last.store| && Replayed(last)
    requires e in w.emitted && e.number > |last.store| && e.number > Goal(last)
    ensures Stranded(w, e)
  {
    if !e.breaks {
      ReadableIsCounted(w.emitted, e);
    }
    OnlyStrandedRemain(w, last, e);
  }

  /** Then everything that is not stranded gets through. */
  lemma {:induction false} GetsThrough(steps: seq<Step>) returns (more: seq<Step>)
    requires Play(steps).up || Play(steps).reporter.spool.present
    requires Passable(Play(steps))
    ensures var w, last := Play(steps), Play(steps + more);
            && last.up && last.reporter.queue == [] && last.emitted == w.emitted && last.store <= w.emitted
            && forall e :: e in w.emitted && |last.store| < e.number ==> Stranded(w, e)
  {
    var w := Play(steps);
    var replay := ReplayAll(steps);
    var collect := Collected(steps + replay);
    var ready := Play(steps + replay + collect);
    PassableIsReady(w, ready);
    var drain := BacklogDrains(steps + replay + collect);
    more := replay + collect + drain;
    assert steps + more == steps + replay + collect + drain;
    var last := Play(steps + more);
    Always(steps + more);
    Always(steps);
    forall e | e in w.emitted && |last.store| < e.number
      ensures Stranded(w, e)
    {
      BehindTheGoal(w, ready, e);
    }
  }

  ghost predicate NothingStranded(w: World) {
    forall e :: !Stranded(w, e)
  }

  lemma GoneHasReadable(w: World, e: Event)
    requires Inv(w) && Settled(w) && !w.reporter.spool.present
    requires e in w.emitted && |w.store| < e.number
    ensures e.breaks
  {
    if w.recovered {
      ReadableIsQueued(w.emitted, w.reporter.spool.cursor);
      if !e.breaks {
        ReadableIsCounted(w.emitted, e);
      }
    } else {
      WholeBacklog(w.emitted, w.reporter.spool.cursor);
    }
  }

  lemma {:induction false} ArrivesWithoutSpool(steps: seq<Step>) returns (more: seq<Step>)
    requires NothingStranded(Play(steps)) && !Play(steps).up && !Play(steps).reporter.spool.present
    ensures Play(steps).emitted <= Play(steps + more).store
  {
    more := ReplayAll(steps);
    var w, last := Play(steps), Play(steps + more);
    Always(steps + more);
    AlwaysSettled(steps + more);
    if |last.store| < |w.emitted| {
      var e := w.emitted[|last.store|];
      GoneHasReadable(last, e);
      OnlyStrandedRemain(w, last, e);
    }
  }

  lemma AllArrived(emitted: seq<Event>, store: seq<Event>)
    requires Numbered(emitted) && store <= emitted && forall e :: e in emitted ==> e.number <= |store|
    ensures emitted <= store
  {
    if emitted != [] {
      assert emitted[|emitted| - 1] in emitted;
    }
  }

  lemma {:induction false} Arrives(steps: seq<Step>) returns (more: seq<Step>)
    requires NothingStranded(Play(steps))
    ensures Play(steps).emitted <= Play(steps + more).store
  {
    if Play(steps).up || Play(steps).reporter.spool.present {
      more := GetsThrough(steps);
      Always(steps);
      AllArrived(Play(steps).emitted, Play(steps + more).store);
    } else {
      more := ArrivesWithoutSpool(steps);
    }
  }

  /** The server can still get every event if and only if none is stranded. */
  lemma {:induction false} EveryEventCanArriveExactlyWhen(steps: seq<Step>)
    ensures (exists more: seq<Step> :: Play(steps).emitted <= Play(steps + more).store)
            <==> NothingStranded(Play(steps))
  {
    if NothingStranded(Play(steps)) {
      var more := Arrives(steps);
    } else {
      var e :| Stranded(Play(steps), e);
      Always(steps);
      forall more: seq<Step> | Play(steps).emitted <= Play(steps + more).store
        ensures false
      {
        StrandedStays(steps, e, more);
      }
    }
  }

  lemma {:induction false} Goes(steps: seq<Step>) returns (more: seq<Step>)
    requires Passable(Play(steps)) && Play(steps).reporter.spool.present
    ensures !Play(steps + more).reporter.spool.present
  {
    var before := GetsThrough(steps);
    PlaySnoc(steps + before, Close);
    PlaySnoc(steps + before + [Close], Delete);
    more := before + [Close] + [Delete];
    assert steps + more == steps + before + [Close] + [Delete];
  }

  /** The spool can still be deleted if and only if no stranded event is followed by a readable line. */
  lemma {:induction false} SpoolCanGoExactlyWhen(steps: seq<Step>)
    ensures (exists more: seq<Step> :: !Play(steps + more).reporter.spool.present) <==> Passable(Play(steps))
  {
    if !Passable(Play(steps)) {
      StaysForGood(steps);
    } else if Play(steps).reporter.spool.present {
      var more := Goes(steps);
    } else {
      assert steps + [] == steps;
    }
  }

  lemma StrandedIsReadNever(w: World, e: Event)
    requires Numbered(w.emitted) && Stranded(w, e)
    ensures e.number != LastReadable(w.emitted)
  {
    LastReadableHolds(w.emitted);
  }

  lemma {:induction false} StaysForGood(steps: seq<Step>)
    requires !Passable(Play(steps))
    ensures forall more: seq<Step> :: Play(steps + more).reporter.spool.present
  {
    var e :| Stranded(Play(steps), e) && LastReadable(Play(steps).emitted) >= e.number;
    Always(steps);
    StrandedIsReadNever(Play(steps), e);
    forall more: seq<Step>
      ensures Play(steps + more).reporter.spool.present
    {
      StrandedBlocksForGood(steps, e, more);
    }
  }

  // --- And it does happen. ---

  /** Up to n everything was emitted, and everything before b delivered. */
  ghost predicate SentUpTo(w: World, events: seq<Event>, b: nat, n: nat) {
    && 1 <= b <= n + 1 <= |events| + 1
    && w.emitted == events[..n] && w.store == events[..b - 1]
    && w.up && !w.recovered && !w.reporter.closed && w.reporter.sequence == n && w.reporter.spool.present
    && forall posted, e :: posted in w.wire && e in posted ==> e.number < b
  }

  lemma {:induction false} BeforeIsSent(events: seq<Event>, b: nat)
    requires Numbered(events) && 1 <= b <= |events|
    ensures SentUpTo(Play(RoundTrips(events[..b - 1])), events, b, b - 1)
  {
    var front := events[..b - 1];
    RoundTripsPlay(front);
    var w := Play(RoundTrips(front));
    Always(RoundTrips(front));
    forall posted, e | posted in w.wire && e in posted
      ensures e.number < b
    {
      assert FromEmitted(posted, front);
    }
  }

  lemma {:induction false} RestIsEmitted(events: seq<Event>, b: nat, n: nat) returns (steps: seq<Step>)
    requires Numbered(events) && 1 <= b <= n + 1 <= |events| + 1
    requires b <= |events|
    ensures SentUpTo(Play(steps), events, b, n)
    decreases n
  {
    if n == b - 1 {
      BeforeIsSent(events, b);
      steps := RoundTrips(events[..b - 1]);
    } else {
      var before := RestIsEmitted(events, b, n - 1);
      var e := events[n - 1];
      PlaySnoc(before, Emit(e.body, e.breaks));
      steps := before + [Emit(e.body, e.breaks)];
      assert events[..n - 1] + [e] == events[..n];
    }
  }

  /** Any broken line can be stranded, by a crash that comes before it is posted; if a readable line follows, its
      event and all behind it are then kept from the server for good, and the spool stays. */
  lemma BrokenLineCanBeStranded(events: seq<Event>, b: nat)
    requires Numbered(events) && 1 <= b <= |events| && events[b - 1].breaks
    ensures exists steps :: Play(steps).emitted == events && |Play(steps).store| == b - 1
                         && Stranded(Play(steps), events[b - 1])
  {
    var before := RestIsEmitted(events, b, |events|);
    PlaySnoc(before, Crash);
    assert events[..|events|] == events;
  }

  /** The shortest run: of two events the first is broken, and the restart comes before the first post. */
  lemma TwoEventsAreBlocked(first: Body, second: Body, more: seq<Step>)
    ensures var w := Play([Emit(first, true), Emit(second, false), Crash, Recover] + more);
            && w.emitted == [Event(1, first, true), Event(2, second, false)]
            && w.store == [] && w.reporter.spool.present && (w.up ==> w.reporter.queue != [])
  {
    var steps := [Emit(first, true), Emit(second, false), Crash, Recover];
    var events := [Event(1, first, true), Event(2, second, false)];
    PlayFour([], Emit(first, true), Emit(second, false), Crash, Recover);
    assert [] + steps == steps;
    var sent := Next(Next(INITIAL, Emit(first, true)), Emit(second, false));
    assert sent.emitted == events && sent.reporter.spool == Spool(true, events, 0);
    Restarted(sent);
    assert Play(steps).emitted == events && events[0] in events;
    assert LastReadable(events[..1]) == 0 && LastReadable(events) == 2;
    StrandedBlocksForGood(steps, events[0], more);
    StrandedStays(steps, events[0], more);
  }
}
