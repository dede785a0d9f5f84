/** What a session's diagnostics keep of its streams: the start and the end of the process log, the model
    responses with their tails, and the events around the first failure. */
module DiagnosticsCapture {
  import opened ByteStrings
  import opened DiagnosticsQuota
  import opened Options

  const PROCESS_LOG_PREFIX: nat := 4 * MIB
  const PROCESS_LOG_TAIL: nat := MIB
  const FAILURE_TAIL: nat := MIB

  const STDERR := "opencode-stderr.raw"
  const EVENTS := "events.raw"
  const WINDOW := "failure-window.raw"

  function ModelFile(call: string): string {
    "model-response-" + call + ".raw"
  }

  lemma ModelFilesDiffer(a: string, b: string)
    ensures ModelFile(a) == ModelFile(b) ==> a == b
    ensures ModelFile(a) != STDERR && ModelFile(a) != EVENTS && STDERR != EVENTS
  {
    assert ModelFile(a)[15..|ModelFile(a)| - 4] == a && ModelFile(b)[15..|ModelFile(b)| - 4] == b;
    assert ModelFile(a)[0] == 'm' && STDERR[0] == 'o' && EVENTS[0] == 'e';
  }

  // --- The process log. ---

  datatype Log = Log(observed: nat, saved: nat, truncated: bool, tail: Bytes)

  function LogPrefix(log: Log, raw: Bytes): Bytes {
    Cut(raw, Monus(PROCESS_LOG_PREFIX, log.saved))
  }

  function Overflow(log: Log, raw: Bytes): Bytes {
    raw[|LogPrefix(log, raw)|..]
  }

  function Logged(log: Log, raw: Bytes, accepted: bool): Log {
    var prefix := LogPrefix(log, raw);
    var overflow := Overflow(log, raw);
    Log(log.observed + |raw|,
        if prefix != [] && accepted then log.saved + |prefix| else log.saved,
        log.truncated || (prefix != [] && !accepted) || overflow != [],
        if overflow == [] then log.tail else LastBytes(log.tail + overflow, PROCESS_LOG_TAIL))
  }

  // --- Model responses. ---

  datatype Response = Response(observed: nat, saved: nat, truncated: bool, tail: Bytes)

  function Received(r: Response, raw: Bytes, accepted: bool): Response {
    Response(r.observed + |raw|, if accepted then r.saved + |raw| else r.saved, r.truncated || !accepted,
             LastBytes(r.tail + raw, FAILURE_TAIL))
  }

  // --- Events. ---

  /** `chunks` is the deque of the last chunks, `bytes` their size. */
  datatype Tail = Tail(chunks: seq<Bytes>, bytes: nat, failing: bool, post: nat)

  function Size(chunks: seq<Bytes>): nat {
    if chunks == [] then 0 else |chunks[0]| + Size(chunks[1..])
  }

  /** The longest run of last chunks that fits. */
  function Trimmed(chunks: seq<Bytes>): seq<Bytes> {
    if chunks == [] || Size(chunks) <= FAILURE_TAIL then chunks else Trimmed(chunks[1..])
  }

  function Post(t: Tail, chunk: Bytes): Bytes {
    if t.failing then Cut(chunk, t.post) else []
  }

  function Seen(t: Tail, chunk: Bytes): Tail {
    var chunks := Trimmed(t.chunks + [chunk]);
    Tail(chunks, Size(chunks), t.failing, t.post - |Post(t, chunk)|)
  }

  lemma {:induction false} SizeSnoc(chunks: seq<Bytes>, chunk: Bytes)
    ensures Size(chunks + [chunk]) == Size(chunks) + |chunk|
    decreases |chunks|
  {
    if chunks == [] {
      assert [] + [chunk] == [chunk];
    } else {
      SizeSnoc(chunks[1..], chunk);
      assert (chunks + [chunk])[1..] == chunks[1..] + [chunk];
    }
  }

  class StreamCapture {
    const diagnostics: RawDiagnostics
    var log: Log
    var responses: map<string, Response>
    var eventTail: seq<Bytes>
    var eventTailBytes: nat
    var failureActive: bool
    var failurePostRemaining: nat

    ghost function TailView(): Tail
      reads this
    {
      Tail(eventTail, eventTailBytes, failureActive, failurePostRemaining)
    }

    constructor (diagnostics: RawDiagnostics)
      ensures this.diagnostics == diagnostics
      ensures log == Log(0, 0, false, []) && responses == map[] && TailView() == Tail([], 0, false, FAILURE_TAIL)
    {
      this.diagnostics := diagnostics;
      log, responses := Log(0, 0, false, []), map[];
      eventTail, eventTailBytes, failureActive, failurePostRemaining := [], 0, false, FAILURE_TAIL;
    }

    method ProcessLog(raw: Bytes, refreshed: Option<int>, writable: bool)
      modifies this`log, diagnostics, diagnostics.usage
      ensures var outcome := AppendOutcome(old(diagnostics.View()), old(diagnostics.usage.total), STDERR,
                                           LogPrefix(old(log), raw), true, refreshed, writable);
              log == Logged(old(log), raw, outcome.saved)
              && (if LogPrefix(old(log), raw) == [] then diagnostics.View() == old(diagnostics.View())
                  else diagnostics.View() == outcome.store)
    {
      var prefix := LogPrefix(log, raw);
      var saved, truncated, tail := log.saved, log.truncated, log.tail;
      if prefix != [] {
        var accepted := diagnostics.Append(STDERR, prefix, true, refreshed, writable);
        if accepted {
          saved := saved + |prefix|;
        } else {
          truncated := true;
        }
      }
      var overflow := raw[|prefix|..];
      if overflow != [] {
        truncated := true;
        tail := LastBytes(tail + overflow, PROCESS_LOG_TAIL);
      }
      log := Log(log.observed + |raw|, saved, truncated, tail);
    }

    method ModelResponseChunk(call: string, raw: Bytes, refreshed: Option<int>, writable: bool)
      modifies this`responses, diagnostics, diagnostics.usage
      ensures var outcome := AppendOutcome(old(diagnostics.View()), old(diagnostics.usage.total), ModelFile(call), raw,
                                           true, refreshed, writable);
              if call !in old(responses) then
                responses == old(responses) && diagnostics.View() == old(diagnostics.View())
              else
                && responses == old(responses)[call := Received(old(responses[call]), raw, outcome.saved)]
                && diagnostics.View() == outcome.store
    {
      if call in responses {
        var r := responses[call];
        var accepted := diagnostics.Append(ModelFile(call), raw, true, refreshed, writable);
        responses := responses[call := Response(
          r.observed + |raw|, if accepted then r.saved + |raw| else r.saved, r.truncated || !accepted,
          LastBytes(r.tail + raw, FAILURE_TAIL))];
      }
    }

    /** The deque, the window after a failure, and the stream itself. */
    method EventChunk(chunk: Bytes, free: int, refreshed: Option<int>, writable: bool)
      requires eventTailBytes == Size(eventTail)
      modifies this`eventTail, this`eventTailBytes, this`failurePostRemaining, diagnostics, diagnostics.usage
      ensures TailView() == Seen(old(TailView()), chunk)
      ensures var window := ReserveOutcome(old(diagnostics.View()), old(diagnostics.usage.total), WINDOW,
                                           Post(old(TailView()), chunk), free, writable);
              diagnostics.View() ==
                AppendOutcome(window.store, window.usage, EVENTS, chunk, true, refreshed, writable).store
    {
      ghost var all := eventTail + [chunk];
      SizeSnoc(eventTail, chunk);
      eventTail := eventTail + [chunk];
      eventTailBytes := eventTailBytes + |chunk|;
      while eventTail != [] && eventTailBytes > FAILURE_TAIL
        invariant eventTailBytes == Size(eventTail) && Trimmed(eventTail) == Trimmed(all)
        invariant diagnostics.View() == old(diagnostics.View())
        invariant diagnostics.usage.total == old(diagnostics.usage.total)
        invariant failurePostRemaining == old(failurePostRemaining)
        decreases |eventTail|
      {
        var removed := eventTail[0];
        eventTail := eventTail[1..];
        eventTailBytes := eventTailBytes - |removed|;
      }
      if failureActive && failurePostRemaining > 0 {
        var post := Cut(chunk, failurePostRemaining);
        var _ := diagnostics.AppendReserve(WINDOW, post, free, writable);
        failurePostRemaining := failurePostRemaining - |post|;
      }
      var _ := diagnostics.Append(EVENTS, chunk, true, refreshed, writable);
    }
  }

  // --- A session's capture as a whole. ---

  datatype Env = Env(usage: nat, free: int, refreshed: Option<int>, writable: bool)

  /** One call of the capture. The usage and the disk each append meets are whatever the other tasks left.
      `OtherAppend` and `OtherReserve` are all further appends of the session. */
  datatype Call =
    | LogCall(raw: Bytes, env: Env)
    | ResponseStart(id: string)
    | ResponseChunk(id: string, raw: Bytes, env: Env)
    | ResponseEnd(id: string, env: Env)
    | EventCall(chunk: Bytes, window: Env, env: Env)
    | FirstFailure(env: Env)
    | OtherAppend(name: string, data: Bytes, env: Env)
    | OtherReserve(name: string, data: Bytes, env: Env)

  /** `logged`, `received` and `events` are the chunks observed so far, `rest` what went past the start of the
      log, `before` what the tail held at the
      first failure, `window` what was offered to the failure window, `after` the chunks since. */
  datatype Capture = Capture(
    store: Store, log: Log, responses: map<string, Response>, tail: Tail, logged: seq<Bytes>,
    rest: Bytes, received: map<string, seq<Bytes>>, events: seq<Bytes>, before: Bytes, window: Bytes, after: seq<Bytes>)

  const START := Capture(
    FRESH, Log(0, 0, false, []), map[], Tail([], 0, false, FAILURE_TAIL), [], [], map[], [], [], [], [])

  /** Call ids are not used twice, and the further files have names of their own. */
  predicate Possible(c: Capture, call: Call) {
    match call
    case ResponseStart(id) => id !in c.received
    case ResponseChunk(id, _, _) => id in c.responses && id in c.received
    case ResponseEnd(id, _) => id in c.responses
    case FirstFailure(_) => !c.tail.failing
    case OtherAppend(name, _, _) => OwnName(name)
    case OtherReserve(name, _, _) => OwnName(name)
    case _ => true
  }

  predicate OwnName(name: string) {
    name != STDERR && name != EVENTS && name != WINDOW && !IsModelFile(name)
  }

  predicate IsModelFile(name: string) {
    |name| >= 15 && name[..15] == "model-response-"
  }

  function Saving(s: Store, name: string, data: Bytes, env: Env): Outcome {
    AppendOutcome(s, env.usage, name, data, true, env.refreshed, env.writable)
  }

  function Reserving(s: Store, name: string, data: Bytes, env: Env): Outcome {
    ReserveOutcome(s, env.usage, name, data, env.free, env.writable)
  }

  function AfterLog(c: Capture, raw: Bytes, env: Env): Capture {
    var prefix := LogPrefix(c.log, raw);
    var outcome := Saving(c.store, STDERR, prefix, env);
    c.(store := if prefix == [] then c.store else outcome.store, log := Logged(c.log, raw, outcome.saved),
       logged := c.logged + [raw], rest := c.rest + Overflow(c.log, raw))
  }

  function AfterChunk(c: Capture, id: string, raw: Bytes, env: Env): Capture
    requires id in c.responses && id in c.received
  {
    var outcome := Saving(c.store, ModelFile(id), raw, env);
    c.(store := outcome.store, responses := c.responses[id := Received(c.responses[id], raw, outcome.saved)],
       received := c.received[id := c.received[id] + [raw]])
  }

  function AfterEvent(c: Capture, chunk: Bytes, window: Env, env: Env): Capture {
    var post := Post(c.tail, chunk);
    var reserved := Reserving(c.store, WINDOW, post, window).store;
    c.(store := Saving(reserved, EVENTS, chunk, env).store, tail := Seen(c.tail, chunk), events := c.events + [chunk],
       window := c.window + post, after := if c.tail.failing then c.after + [chunk] else c.after)
  }

  function AfterFailure(c: Capture, env: Env): Capture {
    var held := Flatten(c.tail.chunks);
    c.(store := Reserving(c.store, WINDOW, held, env).store, tail := c.tail.(failing := true),
       before := held, window := held)
  }

  function Apply(c: Capture, call: Call): Capture
    requires Possible(c, call)
  {
    match call
    case LogCall(raw, env) => AfterLog(c, raw, env)
    case ResponseStart(id) =>
      c.(responses := c.responses[id := Response(0, 0, false, [])], received := c.received[id := []])
    case ResponseChunk(id, raw, env) => AfterChunk(c, id, raw, env)
    case ResponseEnd(id, env) =>
      var r := c.responses[id];
      var kept := if r.truncated then r.tail else [];
      c.(store := Reserving(c.store, ModelFile(id + "-tail"), kept, env).store, responses := c.responses - {id})
    case EventCall(chunk, window, env) => AfterEvent(c, chunk, window, env)
    case FirstFailure(env) => AfterFailure(c, env)
    case OtherAppend(name, data, env) => c.(store := Saving(c.store, name, data, env).store)
    case OtherReserve(name, data, env) => c.(store := Reserving(c.store, name, data, env).store)
  }

  function Play(calls: seq<Call>): Capture {
    if calls == [] then START
    else
      var c := Play(calls[..|calls| - 1]);
      if Possible(c, calls[|calls| - 1]) then Apply(c, calls[|calls| - 1]) else c
  }

  // --- One stream and its file. ---

  function Saved(s: Store, name: string): Bytes {
    FileOf(Ordinary(s.writes), name)
  }

  lemma FileSnoc(writes: seq<Write>, w: Write, name: string)
    ensures FileOf(writes + [w], name) == FileOf(writes, name) + if w.name == name then w.data else []
  {
    assert (writes + [w])[..|writes|] == writes;
  }

  lemma SavingSaves(s: Store, name: string, data: Bytes, env: Env, other: string)
    ensures var outcome := Saving(s, name, data, env);
            && outcome.store.failed == (s.failed || (data != [] && !outcome.saved))
            && (s.failed || data == [] ==> !outcome.saved)
            && Saved(outcome.store, other) == Saved(s, other) + if outcome.saved && name == other then data else []
  {
    var outcome, w := Saving(s, name, data, env), Write(name, data, false);
    if outcome.saved {
      assert outcome.store.writes == s.writes + [w];
      WriteSnoc(s.writes, w);
      FileSnoc(Ordinary(s.writes), w, other);
    } else {
      assert outcome.store.writes == s.writes;
      assert Saved(s, other) + [] == Saved(s, other);
    }
  }

  lemma ReservingSavesNothing(s: Store, name: string, data: Bytes, env: Env, other: string)
    ensures var outcome := Reserving(s, name, data, env);
            outcome.store.failed == s.failed && Saved(outcome.store, other) == Saved(s, other)
  {
    var outcome := Reserving(s, name, data, env);
    if outcome.saved {
      WriteSnoc(s.writes, Write(name, Cut(data, s.reserve), true));
      assert Ordinary(outcome.store.writes) == Ordinary(s.writes);
    }
  }

  lemma LastBytesStep(a: Bytes, b: Bytes, n: nat)
    ensures LastBytes(LastBytes(a, n) + b, n) == LastBytes(a + b, n)
  {
    var kept := LastBytes(a, n);
    if |a| > n && |kept + b| > n {
      assert (kept + b)[|kept + b| - n..] == (a + b)[|a + b| - n..];
    }
  }

  lemma CutStep(a: Bytes, b: Bytes, n: nat)
    ensures |Cut(a, n)| <= n
    ensures Cut(a + b, n) == Cut(a, n) + Cut(b, n - |Cut(a, n)|)
  {
  }

  /** `rest` is what went past the start of the log. */
  predicate LogCounts(log: Log, file: Bytes, rest: Bytes, all: Bytes) {
    && log.observed == |all| && log.saved == |file| <= PROCESS_LOG_PREFIX && file <= all
    && log.tail == LastBytes(rest, PROCESS_LOG_TAIL) && (log.truncated <==> file != all)
  }

  predicate LogWhole(log: Log, file: Bytes, rest: Bytes, all: Bytes) {
    all == file + rest && (rest != [] ==> |file| == PROCESS_LOG_PREFIX) && log.truncated == (rest != [])
  }

  predicate LogSays(log: Log, file: Bytes, rest: Bytes, all: Bytes, failed: bool) {
    LogCounts(log, file, rest, all) && (!failed ==> LogWhole(log, file, rest, all))
  }

  lemma TailGrows(log: Log, rest: Bytes, raw: Bytes, saved: bool)
    requires log.tail == LastBytes(rest, PROCESS_LOG_TAIL)
    ensures Logged(log, raw, saved).tail == LastBytes(rest + Overflow(log, raw), PROCESS_LOG_TAIL)
  {
    LastBytesStep(rest, Overflow(log, raw), PROCESS_LOG_TAIL);
    if Overflow(log, raw) == [] {
      assert rest + Overflow(log, raw) == rest;
    }
  }

  lemma Regroup(file: Bytes, rest: Bytes, prefix: Bytes, overflow: Bytes)
    requires rest == [] || prefix == []
    ensures file + rest + (prefix + overflow) == (file + prefix) + (rest + overflow)
  {
    if rest == [] {
      assert file + rest == file && rest + overflow == overflow;
    } else {
      assert prefix + overflow == overflow && file + prefix == file;
    }
  }

  lemma LogStaysWhole(log: Log, file: Bytes, rest: Bytes, all: Bytes, raw: Bytes)
    requires LogWhole(log, file, rest, all) && log.saved == |file| <= PROCESS_LOG_PREFIX
    ensures var prefix := LogPrefix(log, raw);
            LogWhole(Logged(log, raw, prefix != []), file + prefix, rest + Overflow(log, raw), all + raw)
  {
    var prefix, overflow := LogPrefix(log, raw), Overflow(log, raw);
    assert raw == prefix + overflow;
    Regroup(file, rest, prefix, overflow);
  }

  lemma LogStillCounts(log: Log, file: Bytes, rest: Bytes, all: Bytes, raw: Bytes, prefix: Bytes)
    requires LogCounts(log, file, rest, all) && prefix == LogPrefix(log, raw) && file + prefix <= all + raw
    ensures LogCounts(Logged(log, raw, prefix != []), file + prefix, rest + Overflow(log, raw), all + raw)
  {
    TailGrows(log, rest, raw, prefix != []);
  }

  lemma FrontOf(whole: Bytes, front: Bytes, back: Bytes)
    requires whole == front + back
    ensures front <= whole
  {
  }

  lemma LogAccepts(log: Log, file: Bytes, rest: Bytes, all: Bytes, raw: Bytes, prefix: Bytes, next: Log)
    requires LogCounts(log, file, rest, all) && LogWhole(log, file, rest, all)
    requires prefix == LogPrefix(log, raw) && next == Logged(log, raw, prefix != [])
    ensures LogCounts(next, file + prefix, rest + Overflow(log, raw), all + raw)
    ensures LogWhole(next, file + prefix, rest + Overflow(log, raw), all + raw)
  {
    LogStaysWhole(log, file, rest, all, raw);
    FrontOf(all + raw, file + prefix, rest + Overflow(log, raw));
    LogStillCounts(log, file, rest, all, raw, prefix);
  }

  lemma StillPrefix(file: Bytes, all: Bytes, raw: Bytes)
    requires file <= all
    ensures file <= all + raw
  {
  }

  lemma LogLoses(log: Log, file: Bytes, rest: Bytes, all: Bytes, raw: Bytes)
    requires LogCounts(log, file, rest, all)
    ensures LogCounts(Logged(log, raw, false), file, rest + Overflow(log, raw), all + raw)
  {
    TailGrows(log, rest, raw, false);
    StillPrefix(file, all, raw);
  }

  // --- What every call keeps. ---

  ghost predicate LogFits(c: Capture) {
    LogSays(c.log, Saved(c.store, STDERR), c.rest, Flatten(c.logged), c.store.failed)
  }

  ghost predicate LogAdvances(c: Capture, raw: Bytes, next: Capture) {
    Flatten(next.logged) == Flatten(c.logged) + raw && next.rest == c.rest + Overflow(c.log, raw)
  }

  lemma LogKept(c: Capture, raw: Bytes, next: Capture, prefix: Bytes)
    requires LogFits(c) && LogAdvances(c, raw, next) && !c.store.failed
    requires prefix == LogPrefix(c.log, raw) && next.log == Logged(c.log, raw, prefix != [])
    requires Saved(next.store, STDERR) == Saved(c.store, STDERR) + prefix
    ensures LogFits(next)
  {
    LogAccepts(c.log, Saved(c.store, STDERR), c.rest, Flatten(c.logged), raw, prefix, next.log);
  }

  lemma LogLost(c: Capture, raw: Bytes, next: Capture)
    requires LogFits(c) && LogAdvances(c, raw, next) && next.store.failed
    requires next.log == Logged(c.log, raw, false) && Saved(next.store, STDERR) == Saved(c.store, STDERR)
    ensures LogFits(next)
  {
    LogLoses(c.log, Saved(c.store, STDERR), c.rest, Flatten(c.logged), raw);
  }

  lemma LogOutcome(c: Capture, raw: Bytes, env: Env)
    ensures var prefix, next := LogPrefix(c.log, raw), AfterLog(c, raw, env);
            && LogAdvances(c, raw, next)
            && (if c.store.failed || (prefix != [] && next.store.failed) then
                  && next.store.failed && next.log == Logged(c.log, raw, false)
                  && Saved(next.store, STDERR) == Saved(c.store, STDERR)
                else
                  && next.log == Logged(c.log, raw, prefix != [])
                  && Saved(next.store, STDERR) == Saved(c.store, STDERR) + prefix)
  {
    var file := Saved(c.store, STDERR);
    SavingSaves(c.store, STDERR, LogPrefix(c.log, raw), env, STDERR);
    FlattenSnoc(c.logged, raw);
    assert file + [] == file;
  }

  lemma LogCallKeeps(c: Capture, raw: Bytes, env: Env)
    requires LogFits(c)
    ensures LogFits(AfterLog(c, raw, env))
  {
    var prefix, next := LogPrefix(c.log, raw), AfterLog(c, raw, env);
    LogOutcome(c, raw, env);
    if c.store.failed || (prefix != [] && next.store.failed) {
      LogLost(c, raw, next);
    } else {
      LogKept(c, raw, next, prefix);
    }
  }

  /** A file holds a prefix of what was observed, and all of it while nothing has failed. */
  predicate StreamSays(file: Bytes, all: Bytes, failed: bool) {
    file <= all && (!failed ==> file == all)
  }

  lemma StreamStep(s: Store, name: string, data: Bytes, env: Env, all: Bytes)
    requires StreamSays(Saved(s, name), all, s.failed)
    ensures var outcome := Saving(s, name, data, env);
            StreamSays(Saved(outcome.store, name), all + data, outcome.store.failed)
  {
    var outcome, file := Saving(s, name, data, env), Saved(s, name);
    SavingSaves(s, name, data, env, name);
    assert file + [] == file;
    StillPrefix(file, all, data);
    assert data == [] ==> all + data == all;
  }

  ghost predicate ResponseFits(c: Capture, id: string) {
    if id !in c.received then id !in c.responses && Saved(c.store, ModelFile(id)) == []
    else
      var file, all := Saved(c.store, ModelFile(id)), Flatten(c.received[id]);
      && StreamSays(file, all, c.store.failed)
      && (id in c.responses ==> ResponseSays(c.responses[id], file, all, c.received[id]))
  }

  /** `truncated` is raised exactly by a loss or an empty chunk. */
  predicate ResponseSays(r: Response, file: Bytes, all: Bytes, chunks: seq<Bytes>) {
    && r.observed == |all| && r.saved == |file| && r.tail == LastBytes(all, FAILURE_TAIL)
    && (r.truncated <==> file != all || [] in chunks)
  }

  lemma ResponseSaves(r: Response, all: Bytes, chunks: seq<Bytes>, raw: Bytes)
    requires ResponseSays(r, all, all, chunks) && raw != []
    ensures ResponseSays(Received(r, raw, true), all + raw, all + raw, chunks + [raw])
  {
    LastBytesStep(all, raw, FAILURE_TAIL);
    assert forall c :: c in chunks + [raw] <==> c in chunks || c == raw;
  }

  lemma ResponseLoses(r: Response, file: Bytes, all: Bytes, chunks: seq<Bytes>, raw: Bytes)
    requires ResponseSays(r, file, all, chunks) && file <= all
    ensures ResponseSays(Received(r, raw, false), file, all + raw, chunks + [raw])
  {
    LastBytesStep(all, raw, FAILURE_TAIL);
    assert raw == (chunks + [raw])[|chunks|];
    assert raw != [] ==> |file| < |all + raw|;
  }

  lemma ChunkKeeps(c: Capture, id: string, raw: Bytes, env: Env)
    requires Possible(c, ResponseChunk(id, raw, env)) && ResponseFits(c, id)
    ensures ResponseFits(AfterChunk(c, id, raw, env), id)
  {
    var name, file, all := ModelFile(id), Saved(c.store, ModelFile(id)), Flatten(c.received[id]);
    var outcome := Saving(c.store, name, raw, env);
    StreamStep(c.store, name, raw, env, all);
    SavingSaves(c.store, name, raw, env, name);
    FlattenSnoc(c.received[id], raw);
    if outcome.saved {
      ResponseSaves(c.responses[id], all, c.received[id], raw);
    } else {
      assert file + [] == file;
      ResponseLoses(c.responses[id], file, all, c.received[id], raw);
    }
  }

  ghost predicate EventsFit(c: Capture) {
    && StreamSays(Saved(c.store, EVENTS), Flatten(c.events), c.store.failed)
    && LongestTail(c.tail.chunks, c.events)
    && c.tail.bytes == Size(c.tail.chunks)
    && (if c.tail.failing then
          && c.window == c.before + Cut(Flatten(c.after), FAILURE_TAIL)
          && c.tail.post == FAILURE_TAIL - |Cut(Flatten(c.after), FAILURE_TAIL)|
        else c.tail.post == FAILURE_TAIL && c.window == [] && c.after == [])
  }

  /** The last chunks as far as they fit: one more would be too much. */
  ghost predicate LongestTail(tail: seq<Bytes>, chunks: seq<Bytes>) {
    exists k: nat :: TailFrom(tail, chunks, k)
  }

  predicate TailFrom(tail: seq<Bytes>, chunks: seq<Bytes>, k: nat) {
    && k <= |chunks| && tail == chunks[k..] && Size(tail) <= FAILURE_TAIL
    && (k > 0 ==> Size(chunks[k - 1..]) > FAILURE_TAIL)
  }

  lemma {:induction false} TrimmedFrom(chunks: seq<Bytes>) returns (k: nat)
    ensures TailFrom(Trimmed(chunks), chunks, k)
    decreases |chunks|
  {
    if chunks == [] || Size(chunks) <= FAILURE_TAIL {
      k := 0;
    } else {
      var j := TrimmedFrom(chunks[1..]);
      k := j + 1;
      assert chunks[1..][j..] == chunks[k..];
      if j > 0 {
        assert chunks[1..][j - 1..] == chunks[k - 1..];
      } else {
        assert chunks[0..] == chunks;
      }
    }
  }

  lemma TailStep(tail: seq<Bytes>, chunks: seq<Bytes>, chunk: Bytes)
    requires LongestTail(tail, chunks)
    ensures LongestTail(Trimmed(tail + [chunk]), chunks + [chunk])
  {
    var k: nat :| TailFrom(tail, chunks, k);
    var j := TrimmedFrom(tail + [chunk]);
    var all := chunks + [chunk];
    assert all[k..] == tail + [chunk];
    assert all[k..][j..] == all[k + j..];
    if j > 0 {
      assert all[k..][j - 1..] == all[k + j - 1..];
    } else if k > 0 {
      SizeSnoc(chunks[k - 1..], chunk);
      assert all[k - 1..] == chunks[k - 1..] + [chunk];
    }
    assert TailFrom(Trimmed(tail + [chunk]), all, k + j);
  }

  lemma EventKeeps(c: Capture, chunk: Bytes, window: Env, env: Env)
    requires EventsFit(c)
    ensures EventsFit(AfterEvent(c, chunk, window, env))
  {
    var post := Post(c.tail, chunk);
    var reserved := Reserving(c.store, WINDOW, post, window).store;
    ReservingSavesNothing(c.store, WINDOW, post, window, EVENTS);
    StreamStep(reserved, EVENTS, chunk, env, Flatten(c.events));
    FlattenSnoc(c.events, chunk);
    TailStep(c.tail.chunks, c.events, chunk);
    WindowStep(c, chunk);
  }

  lemma WindowStep(c: Capture, chunk: Bytes)
    requires EventsFit(c)
    ensures c.tail.failing ==>
      && c.window + Post(c.tail, chunk) == c.before + Cut(Flatten(c.after + [chunk]), FAILURE_TAIL)
      && c.tail.post - |Post(c.tail, chunk)| == FAILURE_TAIL - |Cut(Flatten(c.after + [chunk]), FAILURE_TAIL)|
    ensures !c.tail.failing ==> Post(c.tail, chunk) == [] && c.window + Post(c.tail, chunk) == []
  {
    FlattenSnoc(c.after, chunk);
    if c.tail.failing {
      CutStep(Flatten(c.after), chunk, FAILURE_TAIL);
      Associate(c.before, Cut(Flatten(c.after), FAILURE_TAIL), Post(c.tail, chunk));
    }
  }

  /** The file an append of the call goes to. */
  function Target(call: Call): string {
    match call
    case LogCall(_, _) => STDERR
    case ResponseChunk(id, _, _) => ModelFile(id)
    case EventCall(_, _, _) => EVENTS
    case OtherAppend(name, _, _) => name
    case _ => ""
  }

  predicate Untouched(s: Store, next: Store, name: string) {
    Saved(next, name) == Saved(s, name) && (s.failed ==> next.failed)
  }

  lemma SavingElsewhere(s: Store, name: string, data: Bytes, env: Env, other: string)
    requires name != other
    ensures Untouched(s, Saving(s, name, data, env).store, other)
  {
    SavingSaves(s, name, data, env, other);
    assert Saved(s, other) + [] == Saved(s, other);
  }

  lemma OthersUntouched(c: Capture, call: Call, name: string)
    requires Possible(c, call) && name != Target(call)
    ensures Untouched(c.store, Apply(c, call).store, name)
  {
    match call
    case LogCall(raw, env) => SavingElsewhere(c.store, STDERR, LogPrefix(c.log, raw), env, name);
    case ResponseChunk(id, raw, env) => SavingElsewhere(c.store, ModelFile(id), raw, env, name);
    case OtherAppend(other, data, env) => SavingElsewhere(c.store, other, data, env, name);
    case ResponseStart(_) =>
    case ResponseEnd(id, env) =>
      var kept := if c.responses[id].truncated then c.responses[id].tail else [];
      ReservingSavesNothing(c.store, ModelFile(id + "-tail"), kept, env, name);
    case FirstFailure(env) =>
      ReservingSavesNothing(c.store, WINDOW, Flatten(c.tail.chunks), env, name);
    case OtherReserve(other, data, env) => ReservingSavesNothing(c.store, other, data, env, name);
    case EventCall(chunk, window, env) =>
      var post := Post(c.tail, chunk);
      ReservingSavesNothing(c.store, WINDOW, post, window, name);
      SavingElsewhere(Reserving(c.store, WINDOW, post, window).store, EVENTS, chunk, env, name);
  }

  /** Only its own call appends to a stream's file. */
  lemma TargetsDiffer(c: Capture, call: Call)
    requires Possible(c, call)
    ensures Target(call) == STDERR ==> call.LogCall?
    ensures Target(call) == EVENTS ==> call.EventCall?
  {
    match call
    case ResponseChunk(id, _, _) => ModelFilesDiffer(id, "");
    case LogCall(_, _) => ModelFilesDiffer("", "");
    case EventCall(_, _, _) => ModelFilesDiffer("", "");
    case _ => assert STDERR != "" && EVENTS != "";
  }

  lemma LogUntouched(c: Capture, next: Capture)
    requires LogFits(c) && Untouched(c.store, next.store, STDERR)
    requires next.log == c.log && next.rest == c.rest && next.logged == c.logged
    ensures LogFits(next)
  {
  }

  lemma LogUnchanged(c: Capture, call: Call, next: Capture)
    requires Possible(c, call) && !call.LogCall? && next == Apply(c, call)
    ensures next.log == c.log && next.rest == c.rest && next.logged == c.logged
    ensures Untouched(c.store, next.store, STDERR)
  {
    TargetsDiffer(c, call);
    OthersUntouched(c, call, STDERR);
  }

  lemma LogChanged(c: Capture, call: Call, next: Capture)
    requires Possible(c, call) && call.LogCall? && next == Apply(c, call)
    ensures next == AfterLog(c, call.raw, call.env)
  {
  }

  lemma LogKeeps(c: Capture, call: Call, next: Capture)
    requires LogFits(c)
    requires if call.LogCall? then next == AfterLog(c, call.raw, call.env)
             else next.log == c.log && next.rest == c.rest && next.logged == c.logged
                  && Untouched(c.store, next.store, STDERR)
    ensures LogFits(next)
  {
    if call.LogCall? {
      LogCallKeeps(c, call.raw, call.env);
    } else {
      LogUntouched(c, next);
    }
  }

  lemma LogStays(c: Capture, call: Call)
    requires Possible(c, call) && LogFits(c)
    ensures LogFits(Apply(c, call))
  {
    var next := Apply(c, call);
    if call.LogCall? {
      LogChanged(c, call, next);
    } else {
      LogUnchanged(c, call, next);
    }
    LogKeeps(c, call, next);
  }

  lemma FailureKeeps(c: Capture, env: Env)
    requires EventsFit(c) && Possible(c, FirstFailure(env))
    ensures EventsFit(AfterFailure(c, env))
  {
    ReservingSavesNothing(c.store, WINDOW, Flatten(c.tail.chunks), env, EVENTS);
    assert Flatten([]) == [] && Flatten(c.tail.chunks) + [] == Flatten(c.tail.chunks);
  }

  lemma EventsKeep(c: Capture, call: Call)
    requires Possible(c, call) && EventsFit(c)
    ensures EventsFit(Apply(c, call))
  {
    match call
    case EventCall(chunk, window, env) => EventKeeps(c, chunk, window, env);
    case FirstFailure(env) => FailureKeeps(c, env);
    case _ =>
      TargetsDiffer(c, call);
      OthersUntouched(c, call, EVENTS);
  }

  lemma ResponseUntouched(c: Capture, call: Call, id: string)
    requires Possible(c, call) && ResponseFits(c, id)
    requires call.ResponseStart? ==> call.id != id
    requires call.ResponseChunk? ==> call.id != id
    ensures ResponseFits(Apply(c, call), id)
  {
    ModelFilesDiffer(id, "");
    if call.ResponseChunk? { ModelFilesDiffer(call.id, id); }
    if call.OtherAppend? { assert ModelFile(id)[..15] == "model-response-"; }
    assert |ModelFile(id)| >= 15;
    OthersUntouched(c, call, ModelFile(id));
  }

  lemma ResponseKeeps(c: Capture, call: Call, id: string)
    requires Possible(c, call) && ResponseFits(c, id)
    ensures ResponseFits(Apply(c, call), id)
  {
    match call
    case ResponseStart(other) =>
      if other == id {
        assert Flatten([]) == [];
      } else {
        ResponseUntouched(c, call, id);
      }
    case ResponseChunk(other, raw, env) =>
      if other == id {
        ChunkKeeps(c, id, raw, env);
      } else {
        ResponseUntouched(c, call, id);
      }
    case _ => ResponseUntouched(c, call, id);
  }

  ghost predicate Inv(c: Capture) {
    LogFits(c) && EventsFit(c) && forall id :: ResponseFits(c, id)
  }

  lemma InitFits()
    ensures Inv(START)
  {
    assert Flatten([]) == [] && Ordinary([]) == [];
    assert TailFrom([], [], 0);
  }

  lemma {:induction false} Always(calls: seq<Call>)
    ensures Inv(Play(calls))
  {
    if calls == [] {
      InitFits();
    } else {
      Always(calls[..|calls| - 1]);
      var c, call := Play(calls[..|calls| - 1]), calls[|calls| - 1];
      if Possible(c, call) {
        LogStays(c, call);
        EventsKeep(c, call);
        forall id
          ensures ResponseFits(Apply(c, call), id)
        {
          ResponseKeeps(c, call, id);
        }
      }
    }
  }

  /** What stays of the failure when more calls follow. */
  lemma {:induction false} FailureIsRemembered(calls: seq<Call>, n: nat)
    requires n < |calls| && calls[n].FirstFailure? && Possible(Play(calls[..n]), calls[n])
    ensures var start, c := Play(calls[..n]), Play(calls);
            && c.tail.failing && c.before == Flatten(start.tail.chunks) && start.events <= c.events
            && c.after == c.events[|start.events|..]
  {
    var front, last := calls[..|calls| - 1], calls[|calls| - 1];
    var start := Play(calls[..n]);
    if n == |front| {
      assert calls[..n] == front && !start.tail.failing;
      Always(front);
    } else {
      assert front[..n] == calls[..n] && front[n] == calls[n];
      FailureIsRemembered(front, n);
      var c := Play(front);
      if last.EventCall? {
        assert (c.events + [last.chunk])[|start.events|..] == c.events[|start.events|..] + [last.chunk];
      }
    }
  }

  // --- What of the failure window is on disk. ---

  function WindowFile(s: Store): Bytes {
    FileOf(s.writes, WINDOW)
  }

  /** An append to the reserve that is cut or refused. A refusal is not final: the next one may be taken. */
  predicate Misses(s: Store, data: Bytes, env: Env) {
    |data| > s.reserve || !Room(env.usage, |data|, Disk(env.free, env.writable))
  }

  predicate MissedAt(c: Capture, call: Call) {
    match call
    case EventCall(chunk, window, _) => Misses(c.store, Post(c.tail, chunk), window)
    case FirstFailure(env) => Misses(c.store, Flatten(c.tail.chunks), env)
    case _ => false
  }

  predicate Missed(calls: seq<Call>) {
    calls != []
    && var (front, call) := (calls[..|calls| - 1], calls[|calls| - 1]);
       Missed(front) || (Possible(Play(front), call) && MissedAt(Play(front), call))
  }

  predicate QuotaFits(s: Store) {
    s.reserve <= FAILURE_RESERVE && s.bytes + s.reserve <= TASK_LIMIT
  }

  /** Nothing of what was offered is missing, or the file is shorter. */
  predicate WindowFits(s: Store, window: Bytes, missed: bool) {
    QuotaFits(s) && if missed then |WindowFile(s)| < |window| else WindowFile(s) == window
  }

  lemma WindowGrows(s: Store, data: Bytes, env: Env, window: Bytes, missed: bool)
    requires WindowFits(s, window, missed)
    ensures WindowFits(Reserving(s, WINDOW, data, env).store, window + data, missed || Misses(s, data, env))
  {
    var slice := Cut(data, s.reserve);
    FileSnoc(s.writes, Write(WINDOW, slice, true), WINDOW);
    assert data == [] ==> window + data == window;
  }

  lemma ReservingElsewhere(s: Store, name: string, data: Bytes, env: Env, window: Bytes, missed: bool)
    requires WindowFits(s, window, missed) && name != WINDOW
    ensures WindowFits(Reserving(s, name, data, env).store, window, missed)
  {
    FileSnoc(s.writes, Write(name, Cut(data, s.reserve), true), WINDOW);
    assert WindowFile(s) + [] == WindowFile(s);
  }

  lemma SavingBeside(s: Store, name: string, data: Bytes, env: Env, window: Bytes, missed: bool)
    requires WindowFits(s, window, missed) && name != WINDOW
    ensures WindowFits(Saving(s, name, data, env).store, window, missed)
  {
    FileSnoc(s.writes, Write(name, data, false), WINDOW);
    assert WindowFile(s) + [] == WindowFile(s);
  }

  lemma WindowStays(c: Capture, call: Call, missed: bool)
    requires Possible(c, call) && EventsFit(c) && WindowFits(c.store, c.window, missed)
    ensures WindowFits(Apply(c, call).store, Apply(c, call).window, missed || MissedAt(c, call))
  {
    var s, window := c.store, c.window;
    match call
    case LogCall(raw, env) => SavingBeside(s, STDERR, LogPrefix(c.log, raw), env, window, missed);
    case ResponseStart(_) =>
    case ResponseChunk(id, raw, env) =>
      assert ModelFile(id)[0] != WINDOW[0];
      SavingBeside(s, ModelFile(id), raw, env, window, missed);
    case ResponseEnd(id, env) =>
      assert ModelFile(id + "-tail")[0] != WINDOW[0];
      var kept := if c.responses[id].truncated then c.responses[id].tail else [];
      ReservingElsewhere(s, ModelFile(id + "-tail"), kept, env, window, missed);
    case EventCall(chunk, first, env) =>
      var post := Post(c.tail, chunk);
      WindowGrows(s, post, first, window, missed);
      SavingBeside(Reserving(s, WINDOW, post, first).store, EVENTS, chunk, env, window + post,
                   missed || MissedAt(c, call));
    case FirstFailure(env) =>
      WindowGrows(s, Flatten(c.tail.chunks), env, window, missed);
      assert [] + Flatten(c.tail.chunks) == Flatten(c.tail.chunks);
    case OtherAppend(name, data, env) => SavingBeside(s, name, data, env, window, missed);
    case OtherReserve(name, data, env) => ReservingElsewhere(s, name, data, env, window, missed);
  }

  lemma {:induction false} AlwaysWindow(calls: seq<Call>)
    ensures WindowFits(Play(calls).store, Play(calls).window, Missed(calls))
  {
    if calls != [] {
      var front, call := calls[..|calls| - 1], calls[|calls| - 1];
      Always(front);
      AlwaysWindow(front);
      if Possible(Play(front), call) {
        WindowStays(Play(front), call, Missed(front));
      }
    }
  }

  // --- The guarantees, for any chunking and any mixture of calls. ---

  lemma CutOfSum(file: Bytes, rest: Bytes, n: nat)
    requires |file| <= n && (rest != [] ==> |file| == n)
    ensures Cut(file + rest, n) == file
    ensures (file + rest)[|file|..] == rest
  {
  }

  /** With no failure the process log keeps exactly its first 4 MiB and the last 1 MiB of what followed. */
  lemma {:induction false} ProcessLogIsKept(calls: seq<Call>)
    ensures var c := Play(calls);
            var all, file := Flatten(c.logged), Saved(c.store, STDERR);
            && file <= all && (c.log.truncated <==> file != all)
            && (!c.store.failed ==>
                  && file == Cut(all, PROCESS_LOG_PREFIX)
                  && c.log.tail == LastBytes(all[|file|..], PROCESS_LOG_TAIL)
                  && c.log.truncated == (|all| > PROCESS_LOG_PREFIX))
  {
    var c := Play(calls);
    Always(calls);
    if !c.store.failed {
      CutOfSum(Saved(c.store, STDERR), c.rest, PROCESS_LOG_PREFIX);
    }
  }

  /** Each model response's file is a prefix of it, and the whole unless capture failed; while it runs its
      last 1 MiB is at hand, and it is marked truncated exactly on a loss or an empty chunk. */
  lemma {:induction false} ResponsesAreKept(calls: seq<Call>, id: string)
    requires id in Play(calls).received
    ensures var c := Play(calls);
            var all, file := Flatten(c.received[id]), Saved(c.store, ModelFile(id));
            && file <= all && (!c.store.failed ==> file == all)
            && (id in c.responses ==>
                  && c.responses[id].tail == LastBytes(all, FAILURE_TAIL)
                  && c.responses[id].saved == |file|
                  && (c.responses[id].truncated <==> file != all || [] in c.received[id]))
  {
    Always(calls);
    assert ResponseFits(Play(calls), id);
  }

  /** The event tail is the longest run of last chunks within 1 MiB. */
  lemma {:induction false} EventTailIsLongest(calls: seq<Call>)
    ensures LongestTail(Play(calls).tail.chunks, Play(calls).events)
  {
    Always(calls);
  }

  /** Around the first failure the reserve is offered what the tail held then and the first 1 MiB after it,
      however that arrives. */
  lemma {:induction false} FailureWindowIsBounded(calls: seq<Call>)
    requires Play(calls).tail.failing
    ensures Play(calls).window == Play(calls).before + Cut(Flatten(Play(calls).after), FAILURE_TAIL)
    ensures Saved(Play(calls).store, EVENTS) <= Flatten(Play(calls).events)
  {
    Always(calls);
  }

  /** That is, the longest fitting run of last chunks at the failure, and the first 1 MiB of the chunks after it. */
  lemma {:induction false} FailureWindowIs(calls: seq<Call>, n: nat)
    requires n < |calls| && calls[n].FirstFailure? && Possible(Play(calls[..n]), calls[n])
    ensures var start, c := Play(calls[..n]), Play(calls);
            && start.events <= c.events && LongestTail(start.tail.chunks, start.events)
            && c.window
               == Flatten(start.tail.chunks) + Cut(Flatten(c.events[|start.events|..]), FAILURE_TAIL)
  {
    FailureIsRemembered(calls, n);
    FailureWindowIsBounded(calls);
    EventTailIsLongest(calls[..n]);
  }

  /** What of it is on disk is all of it if and only if no append to the window was larger than what the reserve had
      left or met no room; otherwise bytes are missing, possibly in the middle. */
  lemma {:induction false} WindowIsWholeExactlyWhen(calls: seq<Call>)
    ensures WindowFile(Play(calls).store) == Play(calls).window <==> !Missed(calls)
  {
    AlwaysWindow(calls);
  }

  lemma PlaySnoc(calls: seq<Call>, call: Call)
    requires Possible(Play(calls), call)
    ensures Play(calls + [call]) == Apply(Play(calls), call)
  {
    assert (calls + [call])[..|calls|] == calls;
  }

  /** After the failure, with n bytes of the window behind it. */
  predicate Failing(c: Capture, n: nat, window: Bytes, file: Bytes) {
    && c.tail.failing && c.tail.post + n == FAILURE_TAIL
    && c.store.reserve + n >= FAILURE_RESERVE && QuotaFits(c.store)
    && c.window == window && WindowFile(c.store) == file
  }

  lemma ReserveOne(s: Store, b: byte, env: Env)
    requires QuotaFits(s) && s.reserve > 0
    ensures var next := Reserving(s, WINDOW, [b], env).store;
            && QuotaFits(next) && next.reserve >= s.reserve - 1
            && WindowFile(next)
               == WindowFile(s) + if Room(env.usage, 1, Disk(env.free, env.writable)) then [b] else []
  {
    FileSnoc(s.writes, Write(WINDOW, [b], true), WINDOW);
    assert WindowFile(s) + [] == WindowFile(s);
  }

  lemma EventsBeside(s: Store, b: byte, env: Env)
    requires QuotaFits(s)
    ensures var next := Saving(s, EVENTS, [b], env).store;
            QuotaFits(next) && next.reserve == s.reserve && WindowFile(next) == WindowFile(s)
  {
    FileSnoc(s.writes, Write(EVENTS, [b], false), WINDOW);
    assert WindowFile(s) + [] == WindowFile(s);
  }

  lemma EventWhileFailing(
      calls: seq<Call>, n: nat, before: Bytes, file: Bytes, b: byte, window: Env, env: Env)
    requires n < FAILURE_TAIL && Failing(Play(calls), n, before, file)
    ensures Failing(Play(calls + [EventCall([b], window, env)]), n + 1, before + [b],
                    file + if Room(window.usage, 1, Disk(window.free, window.writable)) then [b] else [])
  {
    var c := Play(calls);
    PlaySnoc(calls, EventCall([b], window, env));
    assert Post(c.tail, [b]) == [b];
    ReserveOne(c.store, b, window);
    EventsBeside(Reserving(c.store, WINDOW, [b], window).store, b, env);
  }

  lemma FailureFirst(env: Env)
    ensures Failing(Play([FirstFailure(env)]), 0, [], [])
  {
    PlaySnoc([], FirstFailure(env));
    assert [] + [FirstFailure(env)] == [FirstFailure(env)];
  }

  /** So a hole: after the failure a chunk is refused, and the next one taken. */
  lemma WindowCanHaveAHole(a: byte, b: byte, env: Env)
    ensures var roomy, full := Env(0, FREE_FLOOR + 1, None, true), Env(0, FREE_FLOOR, None, true);
            var c := Play([FirstFailure(env), EventCall([a], full, env), EventCall([b], roomy, env)]);
            c.window == [a, b] && WindowFile(c.store) == [b]
  {
    var roomy, full := Env(0, FREE_FLOOR + 1, None, true), Env(0, FREE_FLOOR, None, true);
    var calls := [FirstFailure(env)];
    FailureFirst(env);
    EventWhileFailing(calls, 0, [], [], a, full, env);
    EventWhileFailing(calls + [EventCall([a], full, env)], 1, [] + [a], [] + [], b, roomy, env);
    assert calls + [EventCall([a], full, env)] + [EventCall([b], roomy, env)]
        == [FirstFailure(env), EventCall([a], full, env), EventCall([b], roomy, env)];
    assert [] + [a] + [b] == [a, b] && [] + [] + [b] == [b];
  }
}
