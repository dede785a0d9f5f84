/** The event reporter of a session: a write-ahead spool with a cursor, posted in batches over a lossy
    network to a server that stores each event once, and picked up again after a restart. */
module EventDelivery {
  datatype Body = Note(text: string) | Completed(digest: string) | Failed(status: string)

  /** `breaks`: the line written for the event holds U+0085, U+2028 or U+2029, which the writer leaves
      as they are and the reader takes for line ends. The event's identity is its sequence number. */
  datatype Event = Event(number: nat, body: Body, breaks: bool)

  const BATCH: nat := 50

  // --- The spool, and the reporter over it. ---

  datatype Spool = Spool(present: bool, lines: seq<Event>, cursor: nat)

  datatype Reporter = Reporter(queue: seq<Event>, sequence: nat, acked: nat, closed: bool, spool: Spool)

  function Max(a: nat, b: nat): nat {
    if a < b then b else a
  }

  /** The events after the cursor; in what is read back from disk, only those whose line is whole. */
  function Backlog(all: bool, events: seq<Event>, cursor: nat): seq<Event> {
    if events == [] then []
    else
      var e := events[|events| - 1];
      Backlog(all, events[..|events| - 1], cursor) + if e.number > cursor && (all || !e.breaks) then [e] else []
  }

  function LastReadable(events: seq<Event>): nat {
    if events == [] then 0
    else
      var e := events[|events| - 1];
      if e.breaks then LastReadable(events[..|events| - 1]) else Max(LastReadable(events[..|events| - 1]), e.number)
  }

  function Opened(spool: Spool, recover: bool): Reporter {
    Reporter(Backlog(false, spool.lines, spool.cursor), LastReadable(spool.lines), spool.cursor, recover,
             spool.(present := true))
  }

  function NextEvent(r: Reporter, body: Body, breaks: bool): Event {
    Event(r.sequence + 1, body, breaks)
  }

  function Emitted(r: Reporter, body: Body, breaks: bool): Reporter {
    if r.closed then r
    else
      var e := NextEvent(r, body, breaks);
      r.(queue := r.queue + [e], sequence := r.sequence + 1, spool := r.spool.(lines := r.spool.lines + [e]))
  }

  function Batch(r: Reporter): seq<Event> {
    if |r.queue| <= BATCH then r.queue else r.queue[..BATCH]
  }

  /** The head of the queue goes as long as it is what the batch holds next. */
  function Popped(queue: seq<Event>, batch: seq<Event>): seq<Event> {
    if batch == [] then queue
    else
      var rest := Popped(queue, batch[..|batch| - 1]);
      if rest != [] && rest[0].number == batch[|batch| - 1].number then rest[1..] else rest
  }

  function Acknowledged(r: Reporter, batch: seq<Event>): Reporter
    requires batch != []
  {
    var ack := batch[|batch| - 1].number;
    r.(queue := Popped(r.queue, batch), acked := ack, spool := r.spool.(cursor := ack))
  }

  class EventReporter {
    var queue: seq<Event>
    var sequence: nat
    var acked: nat
    var closed: bool
    var spool: Spool

    ghost function View(): Reporter
      reads this
    {
      Reporter(queue, sequence, acked, closed, spool)
    }

    constructor (found: Spool, recover: bool)
      ensures View() == Opened(found, recover)
    {
      queue, sequence, acked, closed, spool := [], 0, found.cursor, recover, found.(present := true);
      new;
      for i := 0 to |found.lines|
        invariant acked == found.cursor && closed == recover && spool == found.(present := true)
        invariant queue == Backlog(false, found.lines[..i], found.cursor)
        invariant sequence == LastReadable(found.lines[..i])
      {
        assert found.lines[..i + 1][..i] == found.lines[..i];
        var e := found.lines[i];
        if !e.breaks {
          sequence := Max(sequence, e.number);
          if e.number > found.cursor {
            queue := queue + [e];
          }
        }
      }
      assert found.lines[..|found.lines|] == found.lines;
    }

    method Emit(body: Body, breaks: bool) returns (number: nat)
      modifies this`queue, this`sequence, this`spool
      ensures View() == Emitted(old(View()), body, breaks)
      ensures number == if closed then 0 else sequence
    {
      if closed {
        return 0;
      }
      sequence := sequence + 1;
      queue := queue + [Event(sequence, body, breaks)];
      spool := spool.(lines := spool.lines + [queue[|queue| - 1]]);
      return sequence;
    }

    method TakeBatch() returns (batch: seq<Event>)
      ensures batch == Batch(View())
    {
      batch := if |queue| <= BATCH then queue else queue[..BATCH];
    }

    method Acknowledge(batch: seq<Event>)
      requires batch != []
      modifies this`queue, this`acked, this`spool
      ensures View() == Acknowledged(old(View()), batch)
    {
      for i := 0 to |batch|
        invariant queue == Popped(old(queue), batch[..i])
        invariant acked == old(acked) && spool == old(spool)
      {
        assert batch[..i + 1][..i] == batch[..i];
        if queue != [] && queue[0].number == batch[i].number {
          queue := queue[1..];
        }
      }
      assert batch[..|batch|] == batch;
      spool := spool.(cursor := batch[|batch| - 1].number);
      acked := batch[|batch| - 1].number;
    }

    method Close()
      modifies this`closed
      ensures View() == old(View()).(closed := true)
    {
      closed := true;
    }

    /** What both the posting thread and close do when they are through. */
    method DeleteIfDone()
      modifies this`spool
      ensures View() == if closed && queue == [] then old(View()).(spool := old(spool).(present := false))
                        else old(View())
    {
      if closed && queue == [] {
        spool := spool.(present := false);
      }
    }
  }

  // --- The server: one transaction for a whole batch. ---

  const MOST: nat := 100

  datatype Answer = Accepted(store: seq<Event>) | Rejected

  predicate Stored(store: seq<Event>, e: Event) {
    exists i :: 0 <= i < |store| && store[i].number == e.number
  }

  function MaxSeq(store: seq<Event>): nat {
    if store == [] then 0 else Max(MaxSeq(store[..|store| - 1]), store[|store| - 1].number)
  }

  /** A repeated event is skipped if it is the same, an unknown one must come next. */
  function ReceiveOne(store: seq<Event>, e: Event): Answer {
    if Stored(store, e) then if e in store then Accepted(store) else Rejected
    else if e.number == MaxSeq(store) + 1 then Accepted(store + [e])
    else Rejected
  }

  function Receive(store: seq<Event>, batch: seq<Event>): Answer {
    if batch == [] then Accepted(store)
    else
      match Receive(store, batch[..|batch| - 1])
      case Rejected => Rejected
      case Accepted(grown) => ReceiveOne(grown, batch[|batch| - 1])
  }

  /** The server's answer to a post. */
  function Answered(store: seq<Event>, posted: seq<Event>): Answer {
    if 1 <= |posted| <= MOST then Receive(store, posted) else Rejected
  }

  ghost predicate Numbered(events: seq<Event>) {
    forall i :: 0 <= i < |events| ==> events[i].number == i + 1
  }

  /** Every event of the batch is the one that was emitted under its number. */
  ghost predicate FromEmitted(batch: seq<Event>, emitted: seq<Event>) {
    forall i :: 0 <= i < |batch| ==> 1 <= batch[i].number <= |emitted| && emitted[batch[i].number - 1] == batch[i]
  }

  lemma {:induction false} MaxSeqOfNumbered(store: seq<Event>)
    requires Numbered(store)
    ensures MaxSeq(store) == |store|
  {
    if store != [] {
      MaxSeqOfNumbered(store[..|store| - 1]);
    }
  }

  /** The server's answer to one emitted event, given that it holds a prefix. */
  lemma ReceiveOneOfEmitted(store: seq<Event>, e: Event, emitted: seq<Event>)
    requires Numbered(emitted) && store <= emitted
    requires 1 <= e.number <= |emitted| && emitted[e.number - 1] == e
    ensures ReceiveOne(store, e) == if e.number <= |store| then Accepted(store)
                                    else if e.number == |store| + 1 then Accepted(emitted[..|store| + 1])
                                    else Rejected
  {
    MaxSeqOfNumbered(store);
    if e.number <= |store| {
      assert store[e.number - 1] == e;
    } else if e.number == |store| + 1 {
      assert store + [e] == emitted[..|store| + 1];
    }
  }

  lemma AcceptedOneIsPrefix(store: seq<Event>, e: Event, emitted: seq<Event>)
    requires Numbered(emitted) && store <= emitted
    requires 1 <= e.number <= |emitted| && emitted[e.number - 1] == e
    requires ReceiveOne(store, e).Accepted?
    ensures store <= ReceiveOne(store, e).store <= emitted
    ensures e.number <= |ReceiveOne(store, e).store|
  {
    ReceiveOneOfEmitted(store, e, emitted);
  }

  lemma ReceiveLast(store: seq<Event>, batch: seq<Event>)
    requires batch != [] && Receive(store, batch).Accepted?
    ensures Receive(store, batch[..|batch| - 1]).Accepted?
    ensures Receive(store, batch) == ReceiveOne(Receive(store, batch[..|batch| - 1]).store, batch[|batch| - 1])
  {
  }

  lemma FromFront(batch: seq<Event>, emitted: seq<Event>)
    requires FromEmitted(batch, emitted) && batch != []
    ensures FromEmitted(batch[..|batch| - 1], emitted)
    ensures var e := batch[|batch| - 1]; 1 <= e.number <= |emitted| && emitted[e.number - 1] == e
  {
  }

  lemma AcceptedStep(store: seq<Event>, grown: seq<Event>, e: Event, emitted: seq<Event>, answer: Answer)
    requires Numbered(emitted) && store <= grown <= emitted
    requires 1 <= e.number <= |emitted| && emitted[e.number - 1] == e
    requires answer == ReceiveOne(grown, e) && answer.Accepted?
    ensures store <= answer.store <= emitted && e.number <= |answer.store|
  {
    AcceptedOneIsPrefix(grown, e, emitted);
  }

  lemma {:induction false} AcceptedIsPrefix(store: seq<Event>, batch: seq<Event>, emitted: seq<Event>)
    requires Numbered(emitted) && store <= emitted && FromEmitted(batch, emitted)
    requires Receive(store, batch).Accepted?
    ensures store <= Receive(store, batch).store <= emitted
    ensures batch != [] ==> batch[|batch| - 1].number <= |Receive(store, batch).store|
    decreases |batch|
  {
    if batch != [] {
      var front, e := batch[..|batch| - 1], batch[|batch| - 1];
      FromFront(batch, emitted);
      ReceiveLast(store, batch);
      AcceptedIsPrefix(store, front, emitted);
      AcceptedStep(store, Receive(store, front).store, e, emitted, Receive(store, batch));
    }
  }

  lemma ReceiveSnoc(store: seq<Event>, batch: seq<Event>, grown: seq<Event>, e: Event, answer: Answer)
    requires Receive(store, batch) == Accepted(grown) && ReceiveOne(grown, e) == answer
    ensures Receive(store, batch + [e]) == answer
  {
    assert (batch + [e])[..|batch|] == batch;
  }

  lemma NextOfStretch(store: seq<Event>, emitted: seq<Event>, hi: nat)
    requires Numbered(emitted) && |store| <= |emitted| && 0 < hi <= |emitted|
    ensures ReceiveOne(emitted[..Max(|store|, hi - 1)], emitted[hi - 1]) == Accepted(emitted[..Max(|store|, hi)])
  {
    ReceiveOneOfEmitted(emitted[..Max(|store|, hi - 1)], emitted[hi - 1], emitted);
  }

  lemma StretchSnoc(emitted: seq<Event>, lo: nat, hi: nat)
    requires lo < hi <= |emitted|
    ensures emitted[lo..hi] == emitted[lo..hi - 1] + [emitted[hi - 1]]
  {
  }

  lemma EmptyStretch(store: seq<Event>, emitted: seq<Event>, lo: nat)
    requires store <= emitted && lo <= |store|
    ensures Receive(store, emitted[lo..lo]) == Accepted(emitted[..Max(|store|, lo)])
  {
    assert emitted[lo..lo] == [] && emitted[..|store|] == store;
  }

  /** A stretch of the emitted events is taken whenever it starts no later than where the server is. */
  lemma {:induction false} StretchIsAccepted(store: seq<Event>, emitted: seq<Event>, lo: nat, hi: nat)
    requires Numbered(emitted) && store <= emitted && lo <= hi <= |emitted| && lo <= |store|
    ensures Receive(store, emitted[lo..hi]) == Accepted(emitted[..Max(|store|, hi)])
    decreases hi
  {
    if lo == hi {
      EmptyStretch(store, emitted, lo);
    } else {
      var batch, e := emitted[lo..hi - 1], emitted[hi - 1];
      StretchIsAccepted(store, emitted, lo, hi - 1);
      NextOfStretch(store, emitted, hi);
      ReceiveSnoc(store, batch, emitted[..Max(|store|, hi - 1)], e, Accepted(emitted[..Max(|store|, hi)]));
      StretchSnoc(emitted, lo, hi);
    }
  }

  /** A batch with a hole before it is refused, whatever follows. */
  lemma {:induction false} GapIsRefused(store: seq<Event>, batch: seq<Event>, emitted: seq<Event>)
    requires Numbered(emitted) && store <= emitted && FromEmitted(batch, emitted)
    requires batch != [] && batch[0].number > |store| + 1
    ensures Receive(store, batch) == Rejected
    decreases |batch|
  {
    var front, e := batch[..|batch| - 1], batch[|batch| - 1];
    if front == [] {
      ReceiveOneOfEmitted(store, e, emitted);
    } else {
      GapIsRefused(store, front, emitted);
    }
  }

  lemma NotPassedBy(grown: seq<Event>, e: Event, emitted: seq<Event>, b: nat)
    requires Numbered(emitted) && grown <= emitted && |grown| < b
    requires 1 <= e.number <= |emitted| && emitted[e.number - 1] == e && e.number != b
    requires ReceiveOne(grown, e).Accepted?
    ensures |ReceiveOne(grown, e).store| < b
  {
    ReceiveOneOfEmitted(grown, e, emitted);
  }

  /** No batch without a number carries the server past it. */
  lemma {:induction false} UnknownIsNotPassed(store: seq<Event>, batch: seq<Event>, emitted: seq<Event>, b: nat)
    requires Numbered(emitted) && store <= emitted && FromEmitted(batch, emitted) && |store| < b
    requires forall e :: e in batch ==> e.number != b
    requires Receive(store, batch).Accepted?
    ensures |Receive(store, batch).store| < b
    decreases |batch|
  {
    if batch != [] {
      var front, e := batch[..|batch| - 1], batch[|batch| - 1];
      FromFront(batch, emitted);
      ReceiveLast(store, batch);
      UnknownIsNotPassed(store, front, emitted, b);
      AcceptedIsPrefix(store, front, emitted);
      NotPassedBy(Receive(store, front).store, e, emitted, b);
    }
  }

  // --- Reporter, network and server together. ---

  datatype World = World(
    emitted: seq<Event>, up: bool, recovered: bool, reporter: Reporter, batch: seq<Event>, answered: bool,
    wire: set<seq<Event>>, store: seq<Event>)

  /** `wire` holds every batch ever posted: any of them may reach the server at any time, again and again,
      also after the executor has died. An answer may be lost, and the server may refuse for reasons of
      its own. */
  datatype Step =
    | Emit(body: Body, breaks: bool)
    | Take
    | Deliver(posted: seq<Event>, refused: bool, heard: bool)
    | Ack
    | Lost
    | Close
    | Delete
    | Crash
    | Recover

  const EMPTY := Spool(true, [], 0)

  const INITIAL := World([], true, false, Opened(EMPTY, false), [], false, {}, [])

  predicate Enabled(w: World, step: Step) {
    match step
    case Emit(_, _) => w.up
    case Take => w.up && w.batch == [] && w.reporter.queue != []
    case Deliver(posted, _, _) => posted in w.wire
    case Ack => w.up && w.batch != [] && w.answered
    case Lost => w.up && w.batch != []
    case Close => w.up
    case Delete => w.up && w.reporter.closed && w.reporter.queue == []
    case Crash => w.up
    case Recover => !w.up && w.reporter.spool.present
  }

  function Delivered(w: World, posted: seq<Event>, refused: bool, heard: bool): World {
    match Answered(w.store, posted)
    case Rejected => w
    case Accepted(store) =>
      if refused then w else w.(store := store, answered := w.answered || (heard && w.up && posted == w.batch))
  }

  function Apply(w: World, step: Step): World
    requires Enabled(w, step)
  {
    match step
    case Emit(body, breaks) =>
      w.(reporter := Emitted(w.reporter, body, breaks),
         emitted := if w.reporter.closed then w.emitted else w.emitted + [NextEvent(w.reporter, body, breaks)])
    case Take => w.(batch := Batch(w.reporter), answered := false, wire := w.wire + {Batch(w.reporter)})
    case Deliver(posted, refused, heard) => Delivered(w, posted, refused, heard)
    case Ack => w.(reporter := Acknowledged(w.reporter, w.batch), batch := [], answered := false)
    case Lost => w.(batch := [], answered := false)
    case Close => w.(reporter := w.reporter.(closed := true))
    case Delete => w.(reporter := w.reporter.(spool := w.reporter.spool.(present := false)))
    case Crash => w.(up := false, batch := [], answered := false)
    case Recover => w.(up := true, recovered := true, reporter := Opened(w.reporter.spool, true))
  }

  function Next(w: World, step: Step): World {
    if Enabled(w, step) then Apply(w, step) else w
  }

  /** Any interleaving: steps not possible at their turn are skipped. */
  function Play(steps: seq<Step>): World {
    if steps == [] then INITIAL else Next(Play(steps[..|steps| - 1]), steps[|steps| - 1])
  }

  /** The queue is what is still to be acknowledged. */
  ghost predicate QueueFits(w: World) {
    && w.reporter.queue == Backlog(!w.recovered, w.emitted, w.reporter.spool.cursor)
    && w.reporter.acked == w.reporter.spool.cursor
    && (if w.recovered then w.reporter.closed else w.reporter.sequence == |w.emitted|)
    && w.batch <= w.reporter.queue
  }

  ghost predicate Inv(w: World) {
    && Numbered(w.emitted)
    && w.store <= w.emitted
    && w.reporter.spool.cursor <= |w.store|
    && w.reporter.spool.lines == w.emitted
    && (forall posted :: posted in w.wire ==> 1 <= |posted| <= BATCH && FromEmitted(posted, w.emitted))
    && (w.answered ==> w.batch != [] && w.batch[|w.batch| - 1].number <= |w.store|)
    && (w.up ==> QueueFits(w))
    && (!w.up ==> w.batch == [])
  }

  // --- The backlog. ---

  lemma {:induction false} BacklogHolds(all: bool, events: seq<Event>, cursor: nat)
    requires Numbered(events)
    ensures FromEmitted(Backlog(all, events, cursor), events)
    ensures forall i :: 0 <= i < |Backlog(all, events, cursor)| ==> cursor < Backlog(all, events, cursor)[i].number
    ensures |events| <= cursor ==> Backlog(all, events, cursor) == []
    decreases |events|
  {
    if events != [] {
      var front, e := events[..|events| - 1], events[|events| - 1];
      BacklogHolds(all, front, cursor);
      assert front + [e] == events;
      FromMore(Backlog(all, front, cursor), front, events);
      BacklogLast(all, events, cursor);
      FromOneMore(Backlog(all, front, cursor), e, events);
    }
  }

  lemma FromOneMore(batch: seq<Event>, e: Event, emitted: seq<Event>)
    requires FromEmitted(batch, emitted) && 1 <= e.number <= |emitted| && emitted[e.number - 1] == e
    ensures FromEmitted(batch + [e], emitted) && FromEmitted(batch + [], emitted)
  {
    assert batch + [] == batch;
  }

  lemma BacklogLast(all: bool, events: seq<Event>, cursor: nat)
    requires events != []
    ensures var e := events[|events| - 1];
            Backlog(all, events, cursor)
              == Backlog(all, events[..|events| - 1], cursor)
                 + if e.number > cursor && (all || !e.breaks) then [e] else []
  {
  }

  lemma TailSnoc(front: seq<Event>, e: Event, cursor: nat)
    requires cursor <= |front|
    ensures (front + [e])[cursor..] == front[cursor..] + [e]
  {
  }

  lemma {:induction false} WholeBacklog(events: seq<Event>, cursor: nat)
    requires Numbered(events) && cursor <= |events|
    ensures Backlog(true, events, cursor) == events[cursor..]
    decreases |events|
  {
    if cursor == |events| {
      BacklogHolds(true, events, cursor);
    } else {
      var front, e := events[..|events| - 1], events[|events| - 1];
      WholeBacklog(front, cursor);
      BacklogLast(true, events, cursor);
      TailSnoc(front, e, cursor);
      assert front + [e] == events;
    }
  }

  /** What is read back has the length of what was queued only if no broken line was dropped. */
  lemma {:induction false} BacklogLoses(events: seq<Event>, cursor: nat)
    ensures |Backlog(false, events, cursor)| <= |Backlog(true, events, cursor)|
    ensures Backlog(false, events, cursor) == Backlog(true, events, cursor)
            <==> forall e :: e in events && e.number > cursor ==> !e.breaks
    ensures |Backlog(false, events, cursor)| == |Backlog(true, events, cursor)|
            ==> Backlog(false, events, cursor) == Backlog(true, events, cursor)
    decreases |events|
  {
    if events != [] {
      var front, e := events[..|events| - 1], events[|events| - 1];
      BacklogLoses(front, cursor);
      assert forall f :: f in events <==> f in front || f == e;
    }
  }

  /** Something was read back exactly if some readable line is behind the cursor. */
  lemma {:induction false} ReadableIsQueued(events: seq<Event>, cursor: nat)
    ensures Backlog(false, events, cursor) == [] <==> LastReadable(events) <= cursor
    ensures forall e :: e in Backlog(false, events, cursor) ==> !e.breaks && e.number <= LastReadable(events)
    decreases |events|
  {
    if events != [] {
      ReadableIsQueued(events[..|events| - 1], cursor);
    }
  }

  /** The first events of a backlog are the backlog up to the last of them. */
  lemma {:induction false} BacklogFront(all: bool, events: seq<Event>, cursor: nat, n: nat)
    requires Numbered(events) && 1 <= n <= |Backlog(all, events, cursor)|
    ensures var last := Backlog(all, events, cursor)[n - 1].number;
            && cursor < last <= |events| && Backlog(all, events[..last], cursor) == Backlog(all, events, cursor)[..n]
            && events[last - 1] == Backlog(all, events, cursor)[n - 1] && (all || !events[last - 1].breaks)
    decreases |events|
  {
    var front, e := events[..|events| - 1], events[|events| - 1];
    var queue, whole := Backlog(all, front, cursor), Backlog(all, events, cursor);
    if n <= |queue| {
      BacklogFront(all, front, cursor, n);
      var last := queue[n - 1].number;
      assert front[..last] == events[..last] && whole[..n] == queue[..n] && whole[n - 1] == queue[n - 1];
    } else {
      assert whole[n - 1] == e && whole[..n] == whole && events[..|events|] == events;
    }
  }

  /** Moving the cursor to an event of the backlog drops everything up to it. */
  lemma {:induction false} BacklogAfter(all: bool, events: seq<Event>, cursor: nat, n: nat)
    requires Numbered(events) && 1 <= n <= |Backlog(all, events, cursor)|
    ensures Backlog(all, events, Backlog(all, events, cursor)[n - 1].number) == Backlog(all, events, cursor)[n..]
    decreases |events|
  {
    var front, e := events[..|events| - 1], events[|events| - 1];
    var queue, whole := Backlog(all, front, cursor), Backlog(all, events, cursor);
    if n <= |queue| {
      BacklogHolds(all, front, cursor);
      var ack := queue[n - 1].number;
      assert cursor < ack <= |front| < e.number;
      BacklogAfter(all, front, cursor, n);
      assert whole == queue + if all || !e.breaks then [e] else [];
      assert Backlog(all, events, ack) == queue[n..] + if all || !e.breaks then [e] else [];
    } else {
      assert whole[n - 1] == e;
      BacklogHolds(all, events, e.number);
    }
  }

  lemma {:induction false} PoppedPrefix(queue: seq<Event>, batch: seq<Event>)
    requires batch <= queue
    ensures Popped(queue, batch) == queue[|batch|..]
    decreases |batch|
  {
    if batch != [] {
      PoppedPrefix(queue, batch[..|batch| - 1]);
    }
  }

  /** Whatever batch is acknowledged, an event not in it stays queued. */
  lemma {:induction false} OnlyPostedIsPopped(queue: seq<Event>, batch: seq<Event>, e: Event)
    requires e in queue && forall f :: f in batch ==> f.number != e.number
    ensures e in Popped(queue, batch)
    decreases |batch|
  {
    if batch != [] {
      OnlyPostedIsPopped(queue, batch[..|batch| - 1], e);
    }
  }

  /** Some event before this one was dropped from the backlog and is not with the server. */
  ghost predicate Hole(store: seq<Event>, emitted: seq<Event>, to: nat) {
    exists e :: e in emitted && e.breaks && |store| < e.number < to
  }

  lemma HoleBefore(store: seq<Event>, emitted: seq<Event>, n: nat)
    requires Numbered(emitted) && 0 < n <= |emitted| && !Hole(store, emitted, n + 1)
    ensures !Hole(store, emitted, n)
    ensures emitted[n - 1].breaks ==> n <= |store|
  {
    assert emitted[n - 1] in emitted;
  }

  lemma BacklogUpTo(all: bool, emitted: seq<Event>, cursor: nat, n: nat)
    requires Numbered(emitted) && 0 < n <= |emitted|
    ensures Backlog(all, emitted[..n], cursor) == Backlog(all, emitted[..n - 1], cursor)
              + if n > cursor && (all || !emitted[n - 1].breaks) then [emitted[n - 1]] else []
  {
    assert emitted[..n][..n - 1] == emitted[..n - 1] && emitted[..n][n - 1] == emitted[n - 1];
  }

  lemma NextIsAccepted(store: seq<Event>, emitted: seq<Event>, rest: seq<Event>, n: nat, queued: bool)
    requires Numbered(emitted) && store <= emitted && 0 < n <= |emitted| && (!queued ==> n <= |store|)
    requires Receive(store, rest) == Accepted(emitted[..Max(|store|, n - 1)])
    ensures Receive(store, rest + if queued then [emitted[n - 1]] else [])
         == Accepted(emitted[..Max(|store|, n)])
  {
    if queued {
      NextOfStretch(store, emitted, n);
      ReceiveSnoc(store, rest, emitted[..Max(|store|, n - 1)], emitted[n - 1], Accepted(emitted[..Max(|store|, n)]));
    } else {
      assert rest + [] == rest;
    }
  }

  /** A backlog without a hole is taken as a whole. */
  lemma {:induction false} BacklogIsAccepted(
      all: bool, store: seq<Event>, emitted: seq<Event>, cursor: nat, n: nat)
    requires Numbered(emitted) && store <= emitted && cursor <= |store| && n <= |emitted|
    requires all || !Hole(store, emitted, n + 1)
    ensures Receive(store, Backlog(all, emitted[..n], cursor)) == Accepted(emitted[..Max(|store|, n)])
    decreases n
  {
    if n == 0 {
      assert emitted[..|store|] == store;
    } else {
      if !all {
        HoleBefore(store, emitted, n);
      }
      BacklogIsAccepted(all, store, emitted, cursor, n - 1);
      BacklogUpTo(all, emitted, cursor, n);
      NextIsAccepted(store, emitted, Backlog(all, emitted[..n - 1], cursor), n,
                     n > cursor && (all || !emitted[n - 1].breaks));
    }
  }

  lemma DroppedIsNotQueued(emitted: seq<Event>, cursor: nat, e: Event)
    requires Numbered(emitted) && e in emitted && e.breaks
    ensures forall f :: f in Backlog(false, emitted, cursor) ==> f.number != e.number
  {
    BacklogHolds(false, emitted, cursor);
    ReadableIsQueued(emitted, cursor);
  }

  /** One with a hole is refused as a whole. */
  lemma HoleIsRefused(store: seq<Event>, batch: seq<Event>, emitted: seq<Event>, cursor: nat)
    requires Numbered(emitted) && store <= emitted && batch != [] && batch <= Backlog(false, emitted, cursor)
    requires Hole(store, emitted, batch[|batch| - 1].number)
    ensures Receive(store, batch) == Rejected
  {
    var e :| e in emitted && e.breaks && |store| < e.number < batch[|batch| - 1].number;
    DroppedIsNotQueued(emitted, cursor, e);
    BacklogHolds(false, emitted, cursor);
    assert FromEmitted(batch, emitted);
    if Receive(store, batch).Accepted? {
      UnknownIsNotPassed(store, batch, emitted, e.number);
      AcceptedIsPrefix(store, batch, emitted);
    }
  }

  // --- What every step keeps. ---

  lemma FromMore(batch: seq<Event>, emitted: seq<Event>, more: seq<Event>)
    requires FromEmitted(batch, emitted) && emitted <= more
    ensures FromEmitted(batch, more)
  {
  }

  lemma EmitKeeps(w: World, body: Body, breaks: bool)
    requires Inv(w) && Enabled(w, Emit(body, breaks))
    ensures Inv(Apply(w, Emit(body, breaks)))
    ensures Apply(w, Emit(body, breaks)).store == w.store && w.emitted <= Apply(w, Emit(body, breaks)).emitted
  {
    if !w.reporter.closed {
      var e := NextEvent(w.reporter, body, breaks);
      var more := w.emitted + [e];
      assert more[..|w.emitted|] == w.emitted;
      forall posted | posted in w.wire
        ensures FromEmitted(posted, more)
      {
        FromMore(posted, w.emitted, more);
      }
    }
  }

  lemma TakeKeeps(w: World)
    requires Inv(w) && Enabled(w, Take)
    ensures Inv(Apply(w, Take))
    ensures Apply(w, Take).store == w.store && Apply(w, Take).emitted == w.emitted
  {
    BacklogHolds(!w.recovered, w.emitted, w.reporter.spool.cursor);
    assert FromEmitted(Batch(w.reporter), w.emitted);
  }

  lemma DeliverKeeps(w: World, posted: seq<Event>, refused: bool, heard: bool)
    requires Inv(w) && Enabled(w, Deliver(posted, refused, heard))
    ensures Inv(Apply(w, Deliver(posted, refused, heard)))
    ensures w.store <= Apply(w, Deliver(posted, refused, heard)).store
    ensures Apply(w, Deliver(posted, refused, heard)).emitted == w.emitted
  {
    if Answered(w.store, posted).Accepted? {
      AcceptedIsPrefix(w.store, posted, w.emitted);
    }
  }

  lemma AckKeeps(w: World)
    requires Inv(w) && Enabled(w, Ack)
    ensures Inv(Apply(w, Ack))
    ensures Apply(w, Ack).store == w.store && Apply(w, Ack).emitted == w.emitted
  {
    PoppedPrefix(w.reporter.queue, w.batch);
    BacklogAfter(!w.recovered, w.emitted, w.reporter.spool.cursor, |w.batch|);
  }

  lemma OtherKeeps(w: World, step: Step)
    requires Inv(w) && Enabled(w, step)
    requires step.Lost? || step.Close? || step.Delete? || step.Crash? || step.Recover?
    ensures Inv(Apply(w, step)) && Apply(w, step).store == w.store && Apply(w, step).emitted == w.emitted
  {
    match step
    case Lost =>
    case Close =>
    case Delete =>
    case Crash =>
    case Recover =>
  }

  lemma StepKeeps(w: World, step: Step)
    requires Inv(w)
    ensures Inv(Next(w, step))
    ensures w.store <= Next(w, step).store && w.emitted <= Next(w, step).emitted
  {
    if Enabled(w, step) {
      match step
      case Emit(body, breaks) => EmitKeeps(w, body, breaks);
      case Take => TakeKeeps(w);
      case Deliver(posted, refused, heard) => DeliverKeeps(w, posted, refused, heard);
      case Ack => AckKeeps(w);
      case _ => OtherKeeps(w, step);
    }
  }

  lemma {:induction false} Always(steps: seq<Step>)
    ensures Inv(Play(steps))
  {
    if steps != [] {
      Always(steps[..|steps| - 1]);
      StepKeeps(Play(steps[..|steps| - 1]), steps[|steps| - 1]);
    }
  }

  // --- The guarantees. ---

  /** Whatever is lost, repeated or restarted, the server holds exactly the first k emitted events, the
      cursor has not passed k, and only events already on disk have been posted. */
  lemma {:induction false} StoreIsPrefix(steps: seq<Step>)
    ensures Play(steps).store <= Play(steps).emitted
    ensures Play(steps).reporter.spool.cursor <= |Play(steps).store|
    ensures forall posted, e :: posted in Play(steps).wire && e in posted ==> e in Play(steps).reporter.spool.lines
  {
    Always(steps);
  }

  /** The queue is exactly what follows the cursor if and only if no event behind the cursor was dropped when
      the spool was read back. */
  lemma {:induction false} QueueIsBacklog(steps: seq<Step>)
    requires Play(steps).up
    ensures var w := Play(steps);
            && w.reporter.acked == w.reporter.spool.cursor <= |w.emitted|
            && (w.reporter.queue == w.emitted[w.reporter.acked..]
                <==> (w.recovered ==> forall e :: e in w.emitted && e.number > w.reporter.acked ==> !e.breaks))
  {
    var w := Play(steps);
    Always(steps);
    WholeBacklog(w.emitted, w.reporter.spool.cursor);
    BacklogLoses(w.emitted, w.reporter.spool.cursor);
  }

  /** The number of the last event that would be posted next. */
  function LastOfBatch(w: World): nat
    requires w.reporter.queue != []
  {
    Batch(w.reporter)[|Batch(w.reporter)| - 1].number
  }

  /** A restart has dropped an event that the server lacks and the next batch passes over. */
  ghost predicate Blocked(w: World) {
    w.recovered && w.reporter.queue != [] && Hole(w.store, w.emitted, LastOfBatch(w))
  }

  lemma FrontIsAnswered(all: bool, store: seq<Event>, emitted: seq<Event>, cursor: nat, batch: seq<Event>)
    requires Numbered(emitted) && store <= emitted && cursor <= |store|
    requires 1 <= |batch| <= BATCH && batch <= Backlog(all, emitted, cursor)
    ensures var last := batch[|batch| - 1].number;
            && |store| <= |emitted| && last <= |emitted|
            && Answered(store, batch)
               == if !all && Hole(store, emitted, last) then Rejected else Accepted(emitted[..Max(|store|, last)])
  {
    var last := batch[|batch| - 1].number;
    BacklogFront(all, emitted, cursor, |batch|);
    assert batch == Backlog(all, emitted, cursor)[..|batch|];
    if !all && Hole(store, emitted, last) {
      HoleIsRefused(store, batch, emitted, cursor);
    } else {
      assert all || !Hole(store, emitted, last + 1);
      BacklogIsAccepted(all, store, emitted, cursor, last);
    }
  }

  lemma BatchFits(w: World)
    requires Inv(w) && w.up && w.reporter.queue != []
    ensures |w.store| <= |w.emitted| && LastOfBatch(w) <= |w.emitted|
    ensures Answered(w.store, Batch(w.reporter))
         == if Blocked(w) then Rejected else Accepted(w.emitted[..Max(|w.store|, LastOfBatch(w))])
  {
    FrontIsAnswered(!w.recovered, w.store, w.emitted, w.reporter.spool.cursor, Batch(w.reporter));
  }

  /** What is posted is taken by the server as a whole, unless it refuses for reasons of its own or a restart
      dropped an event before the last one posted that the server lacks; then it never is. */
  lemma {:induction false} BatchIsAccepted(steps: seq<Step>)
    requires Play(steps).up && Play(steps).reporter.queue != []
    ensures var w := Play(steps);
            && |w.store| <= |w.emitted| && LastOfBatch(w) <= |w.emitted|
            && Answered(w.store, Batch(w.reporter))
               == if Blocked(w) then Rejected else Accepted(w.emitted[..Max(|w.store|, LastOfBatch(w))])
  {
    Always(steps);
    BatchFits(Play(steps));
  }

  /** One batch taken, delivered and acknowledged, as far as each is possible. */
  function AfterRound(w: World): World {
    Next(Next(Next(w, Take), Deliver(Batch(w.reporter), false, true)), Ack)
  }

  lemma RoundFrom(w: World)
    requires w.up && w.batch == [] && w.reporter.queue != []
    ensures var batch, next := Batch(w.reporter), AfterRound(w);
            && next.up && next.recovered == w.recovered && next.emitted == w.emitted
            && match Answered(w.store, batch)
               case Accepted(grown) => next.batch == [] && next.store == grown
                                       && next.reporter == Acknowledged(w.reporter, batch)
               case Rejected => next.batch == batch && next.store == w.store && next.reporter == w.reporter
  {
    var taken := Next(w, Take);
    assert taken.batch == Batch(w.reporter) && Batch(w.reporter) in taken.wire;
  }

  /** One round over a network that works moves a batch of the queue to the server, or nothing if it is blocked. */
  lemma {:induction false} RoundDelivers(steps: seq<Step>)
    requires Play(steps).up && Play(steps).batch == [] && Play(steps).reporter.queue != []
    ensures var w, next := Play(steps), AfterRound(Play(steps));
            && |w.store| <= |w.emitted| && LastOfBatch(w) <= |w.emitted|
            && if Blocked(w) then next.reporter == w.reporter && next.store == w.store
               else
                 && next.reporter.acked == LastOfBatch(w)
                 && next.store == w.emitted[..Max(|w.store|, LastOfBatch(w))]
                 && next.reporter.queue
                    == (if |w.reporter.queue| <= 50 then [] else w.reporter.queue[50..])
  {
    var w := Play(steps);
    Always(steps);
    BatchFits(w);
    RoundFrom(w);
    PoppedPrefix(w.reporter.queue, Batch(w.reporter));
  }

  lemma {:induction false} PlaySnoc(steps: seq<Step>, step: Step)
    ensures Play(steps + [step]) == Next(Play(steps), step)
  {
    assert (steps + [step])[..|steps|] == steps;
  }

  /** Nothing but taking batches, posting them and hearing the answers. */
  predicate Posting(step: Step) {
    step.Take? || step.Deliver? || step.Ack?
  }

  function Round(batch: seq<Event>): seq<Step> {
    [Take, Deliver(batch, false, true), Ack]
  }

  lemma {:induction false} PlayRound(steps: seq<Step>, batch: seq<Event>)
    ensures Play(steps + Round(batch))
         == Next(Next(Next(Play(steps), Take), Deliver(batch, false, true)), Ack)
  {
    PlaySnoc(steps, Take);
    PlaySnoc(steps + [Take], Deliver(batch, false, true));
    PlaySnoc(steps + [Take] + [Deliver(batch, false, true)], Ack);
    assert steps + [Take] + [Deliver(batch, false, true)] + [Ack] == steps + Round(batch);
  }

  lemma Associate(a: seq<Step>, b: seq<Step>, c: seq<Step>)
    ensures a + (b + c) == a + b + c
  {
  }

  /** How far the reporter can get: after a restart not behind the last line it could read. */
  function Goal(w: World): nat {
    if w.recovered then LastReadable(w.emitted) else |w.emitted|
  }

  /** A reporter that can drain: it is up, nothing is in flight, and before its goal there is no hole. */
  ghost predicate Ready(w: World) {
    w.up && w.batch == [] && !(w.recovered && Hole(w.store, w.emitted, Goal(w)))
  }

  lemma {:induction false} LastReadableHolds(events: seq<Event>)
    requires Numbered(events)
    ensures LastReadable(events) <= |events|
    ensures LastReadable(events) > 0 ==> !events[LastReadable(events) - 1].breaks
    decreases |events|
  {
    if events != [] {
      LastReadableHolds(events[..|events| - 1]);
    }
  }

  lemma GoalOfRead(emitted: seq<Event>, cursor: nat, batch: seq<Event>)
    requires Numbered(emitted) && batch <= Backlog(false, emitted, cursor)
    ensures Backlog(false, emitted, cursor) == [] <==> LastReadable(emitted) <= cursor
    ensures batch != [] ==> batch[|batch| - 1].number <= LastReadable(emitted)
    ensures LastReadable(emitted) <= |emitted|
  {
    ReadableIsQueued(emitted, cursor);
    LastReadableHolds(emitted);
  }

  lemma GoalOfQueued(emitted: seq<Event>, cursor: nat, batch: seq<Event>)
    requires Numbered(emitted) && cursor <= |emitted| && batch <= Backlog(true, emitted, cursor)
    ensures Backlog(true, emitted, cursor) == [] <==> |emitted| <= cursor
    ensures batch != [] ==> batch[|batch| - 1].number <= |emitted|
  {
    WholeBacklog(emitted, cursor);
    if batch != [] {
      assert batch[|batch| - 1] == emitted[cursor..][|batch| - 1] == emitted[cursor + |batch| - 1];
    }
  }

  lemma GoalIsAhead(w: World)
    requires Inv(w) && w.up
    ensures w.reporter.queue == [] <==> Goal(w) <= w.reporter.spool.cursor
    ensures w.reporter.queue != [] ==> LastOfBatch(w) <= Goal(w)
    ensures Goal(w) <= |w.emitted|
  {
    if w.recovered {
      GoalOfRead(w.emitted, w.reporter.spool.cursor, Batch(w.reporter));
    } else {
      GoalOfQueued(w.emitted, w.reporter.spool.cursor, Batch(w.reporter));
    }
  }

  lemma ReadyIsNotBlocked(w: World)
    requires Inv(w) && Ready(w)
    ensures !Blocked(w)
  {
    GoalIsAhead(w);
    if w.recovered && w.reporter.queue != [] && Hole(w.store, w.emitted, LastOfBatch(w)) {
      HoleWidens(w.store, w.emitted, LastOfBatch(w), Goal(w));
    }
  }

  lemma HoleWidens(store: seq<Event>, emitted: seq<Event>, to: nat, further: nat)
    requires Hole(store, emitted, to) && to <= further
    ensures Hole(store, emitted, further)
  {
  }

  lemma HoleShrinks(store: seq<Event>, grown: seq<Event>, emitted: seq<Event>, to: nat)
    requires Hole(grown, emitted, to) && |store| <= |grown|
    ensures Hole(store, emitted, to)
  {
  }

  lemma RoundKeepsReady(w: World)
    requires Inv(w) && Ready(w) && w.reporter.queue != []
    ensures Ready(AfterRound(w)) && AfterRound(w).emitted == w.emitted && Goal(AfterRound(w)) == Goal(w)
    ensures |w.store| <= |w.emitted| && LastOfBatch(w) <= Goal(w) <= |w.emitted|
    ensures AfterRound(w).store == w.emitted[..Max(|w.store|, LastOfBatch(w))]
    ensures |AfterRound(w).reporter.queue| < |w.reporter.queue|
  {
    ReadyIsNotBlocked(w);
    BatchFits(w);
    RoundFrom(w);
    PoppedPrefix(w.reporter.queue, Batch(w.reporter));
    GoalIsAhead(w);
    var next := AfterRound(w);
    if next.recovered && Hole(next.store, next.emitted, Goal(next)) {
      HoleShrinks(w.store, next.store, w.emitted, Goal(w));
    }
  }

  /** Left alone with a network that works, a reporter with no hole before its goal empties its queue in finitely
      many rounds, and then the server has everything up to there. */
  lemma {:induction false} BacklogDrains(steps: seq<Step>) returns (more: seq<Step>)
    requires Ready(Play(steps))
    ensures forall step :: step in more ==> Posting(step)
    ensures var w, last := Play(steps), Play(steps + more);
            && Ready(last) && last.reporter.queue == []
            && last.emitted == w.emitted && |w.store| <= |w.emitted| && Goal(w) <= |w.emitted|
            && last.store == w.emitted[..Max(|w.store|, Goal(w))]
    decreases |Play(steps).reporter.queue|
  {
    var w := Play(steps);
    Always(steps);
    GoalIsAhead(w);
    if w.reporter.queue == [] {
      more := [];
      assert steps + more == steps && w.emitted[..|w.store|] == w.store;
    } else {
      var batch := Batch(w.reporter);
      RoundKeepsReady(w);
      PlayRound(steps, batch);
      assert Play(steps + Round(batch)) == AfterRound(w);
      var rest := BacklogDrains(steps + Round(batch));
      more := Round(batch) + rest;
      Associate(steps, Round(batch), rest);
    }
  }

  // --- When the spool may be deleted. ---

  predicate LastBreaks(events: seq<Event>) {
    events != [] && events[|events| - 1].breaks
  }

  lemma {:induction false} LastOfBacklog(all: bool, events: seq<Event>, cursor: nat)
    requires Numbered(events) && cursor < |events| && !LastBreaks(events)
    ensures Backlog(all, events, cursor) != []
  {
  }

  lemma DeleteFits(w: World)
    requires Inv(w) && Enabled(w, Delete) && !LastBreaks(w.emitted)
    ensures w.store == w.emitted
  {
    if w.reporter.spool.cursor < |w.emitted| {
      LastOfBacklog(!w.recovered, w.emitted, w.reporter.spool.cursor);
    }
  }

  /** Only a closed reporter with an empty queue deletes, and it stays like that. */
  ghost predicate Settled(w: World) {
    !w.reporter.spool.present ==>
      (w.up ==> w.reporter.closed) && Backlog(!w.recovered, w.emitted, w.reporter.spool.cursor) == []
  }

  lemma StepSettles(w: World, step: Step)
    requires Inv(w) && Settled(w)
    ensures Settled(Next(w, step))
  {
  }

  lemma {:induction false} AlwaysSettled(steps: seq<Step>)
    ensures Settled(Play(steps))
  {
    if steps != [] {
      Always(steps[..|steps| - 1]);
      AlwaysSettled(steps[..|steps| - 1]);
      StepSettles(Play(steps[..|steps| - 1]), steps[|steps| - 1]);
    }
  }

  /** The spool is gone only when the server has everything, provided the last line does not break. */
  lemma {:induction false} DeletedMeansDelivered(steps: seq<Step>)
    requires !Play(steps).reporter.spool.present && !LastBreaks(Play(steps).emitted)
    ensures Play(steps).store == Play(steps).emitted
  {
    var w := Play(steps);
    Always(steps);
    AlwaysSettled(steps);
    if w.reporter.spool.cursor < |w.emitted| {
      LastOfBacklog(!w.recovered, w.emitted, w.reporter.spool.cursor);
    }
  }

  /** One event emitted, posted, stored and acknowledged. */
  function RoundTrip(e: Event): seq<Step> {
    [Emit(e.body, e.breaks), Take, Deliver([e], false, true), Ack]
  }

  function RoundTrips(events: seq<Event>): seq<Step> {
    if events == [] then [] else RoundTrips(events[..|events| - 1]) + RoundTrip(events[|events| - 1])
  }

  /** The state of a session in which all is quiet. */
  function Quiet(emitted: seq<Event>, wire: set<seq<Event>>): World {
    World(emitted, true, false, Reporter([], |emitted|, |emitted|, false, Spool(true, emitted, |emitted|)),
          [], false, wire, emitted)
  }

  lemma {:induction false} PlayTwo(steps: seq<Step>, a: Step, b: Step)
    ensures Play(steps + [a, b]) == Next(Next(Play(steps), a), b)
  {
    PlaySnoc(steps, a);
    PlaySnoc(steps + [a], b);
    assert steps + [a] + [b] == steps + [a, b];
  }

  lemma {:induction false} PlayFour(steps: seq<Step>, a: Step, b: Step, c: Step, d: Step)
    ensures Play(steps + [a, b, c, d]) == Next(Next(Next(Next(Play(steps), a), b), c), d)
  {
    PlayTwo(steps, a, b);
    PlayTwo(steps + [a, b], c, d);
    assert steps + [a, b] + [c, d] == steps + [a, b, c, d];
  }

  lemma OneRoundTrip(events: seq<Event>, e: Event, wire: set<seq<Event>>)
    requires Numbered(events + [e])
    ensures var taken := Next(Next(Quiet(events, wire), Emit(e.body, e.breaks)), Take);
            Next(Next(taken, Deliver([e], false, true)), Ack) == Quiet(events + [e], wire + {[e]})
  {
    var emitted := Next(Quiet(events, wire), Emit(e.body, e.breaks));
    assert (events + [e])[|events|] == e;
    assert NextEvent(Quiet(events, wire).reporter, e.body, e.breaks) == e;
    assert emitted.reporter.queue == [e];
    var taken := Next(emitted, Take);
    assert taken.batch == [e];
    ReceiveOneOfEmitted(events, e, events + [e]);
    ReceiveSnoc(events, [], events, e, Accepted(events + [e]));
    assert [] + [e] == [e];
    var delivered := Next(taken, Deliver([e], false, true));
    assert delivered.store == events + [e] && delivered.answered;
    PoppedPrefix([e], [e]);
  }

  lemma {:induction false} RoundTripsPlay(events: seq<Event>)
    requires Numbered(events)
    ensures exists wire :: Play(RoundTrips(events)) == Quiet(events, wire)
  {
    if events == [] {
      assert Play([]) == Quiet([], {});
    } else {
      var front, e := events[..|events| - 1], events[|events| - 1];
      RoundTripsPlay(front);
      var wire :| Play(RoundTrips(front)) == Quiet(front, wire);
      assert front + [e] == events;
      OneRoundTrip(front, e, wire);
      PlayFour(RoundTrips(front), Emit(e.body, e.breaks), Take, Deliver([e], false, true), Ack);
      assert Play(RoundTrips(events)) == Quiet(events, wire + {[e]});
    }
  }

  lemma Restarted(w: World)
    requires w.up && w.reporter.spool.present
    ensures Next(Next(w, Crash), Recover) ==
      w.(recovered := true, batch := [], answered := false, reporter := Opened(w.reporter.spool, true))
  {
  }

  lemma NothingToRecover(front: seq<Event>, e: Event)
    requires Numbered(front) && e.breaks
    ensures Backlog(false, front + [e], |front|) == []
  {
    BacklogHolds(false, front, |front|);
    assert (front + [e])[..|front|] == front;
  }

  lemma TailLost(front: seq<Event>, e: Event, wire: set<seq<Event>>)
    requires Numbered(front) && e.number == |front| + 1 && e.breaks
    ensures var w := Next(Next(Next(Next(Quiet(front, wire), Emit(e.body, e.breaks)), Crash), Recover), Delete);
            w.emitted == front + [e] && !w.reporter.spool.present && w.store == front
  {
    var w := Next(Quiet(front, wire), Emit(e.body, e.breaks));
    assert NextEvent(Quiet(front, wire).reporter, e.body, e.breaks) == e;
    assert w.reporter.spool == Spool(true, front + [e], |front|);
    Restarted(w);
    NothingToRecover(front, e);
  }

  /** And the proviso is exact: any session whose last line breaks can lose that event for good, when the
      executor dies before posting it. */
  lemma BreakingTailCanBeLost(events: seq<Event>)
    requires Numbered(events) && LastBreaks(events)
    ensures exists steps :: Play(steps).emitted == events
                         && !Play(steps).reporter.spool.present && Play(steps).store != events
  {
    var front, e := events[..|events| - 1], events[|events| - 1];
    RoundTripsPlay(front);
    var wire :| Play(RoundTrips(front)) == Quiet(front, wire);
    assert front + [e] == events;
    TailLost(front, e, wire);
    PlayFour(RoundTrips(front), Emit(e.body, e.breaks), Crash, Recover, Delete);
    var steps := RoundTrips(front) + [Emit(e.body, e.breaks), Crash, Recover, Delete];
    assert Play(steps).emitted == events && Play(steps).store == front;
  }
}
