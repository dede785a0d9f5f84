/** How much a session's raw diagnostics may write: a limit per task with a reserve for failures, and one
    global limit shared with every other task and with the archives. */
module DiagnosticsQuota {
  import opened ByteStrings
  import opened Options

  const MIB: nat := 1024 * 1024
  const TASK_LIMIT: nat := 256 * MIB
  const FAILURE_RESERVE: nat := 4 * MIB
  const GLOBAL_LIMIT: nat := 2048 * MIB
  const FREE_FLOOR: nat := 64 * MIB

  /** One append to a file of the session. */
  datatype Write = Write(name: string, data: Bytes, reserved: bool)

  datatype Store = Store(
    bytes: nat, reserve: nat, observed: nat, truncated: bool, failed: bool, cachedFree: int, writes: seq<Write>)

  const FRESH := Store(0, FAILURE_RESERVE, 0, false, false, 0, [])

  datatype Outcome = Outcome(store: Store, usage: nat, saved: bool)

  predicate Fits(s: Store, usage: nat, n: nat) {
    s.bytes + n <= TASK_LIMIT - FAILURE_RESERVE && usage + n <= GLOBAL_LIMIT && s.cachedFree - n >= FREE_FLOOR
  }

  function Written(s: Store, w: Write): Store {
    s.(bytes := s.bytes + |w.data|, writes := s.writes + [w])
  }

  /** An ordinary append. The free space is looked up again at most once a second; a failure of any kind
      ends ordinary capture for good. */
  function AppendOutcome(s: Store, usage: nat, name: string, data: Bytes, observed: bool, refreshed: Option<int>,
                  writable: bool): Outcome
  {
    var seen := if observed then s.(observed := s.observed + |data|) else s;
    if data == [] || s.failed then Outcome(seen, usage, false)
    else
      var looked := if refreshed.Some? then seen.(cachedFree := refreshed.value) else seen;
      if !Fits(looked, usage, |data|) || !writable then
        Outcome(looked.(truncated := true, failed := true), usage, false)
      else
        Outcome(Written(looked, Write(name, data, false)).(cachedFree := looked.cachedFree - |data|),
                usage + |data|, true)
  }

  function Cut(data: Bytes, n: nat): Bytes {
    if |data| <= n then data else data[..n]
  }

  /** An append to the reserve takes what still fits into it. */
  function ReserveOutcome(s: Store, usage: nat, name: string, data: Bytes, free: int, writable: bool): Outcome {
    var slice := Cut(data, s.reserve);
    if slice == [] then Outcome(s, usage, false)
    else if s.bytes + |slice| > TASK_LIMIT || usage + |slice| > GLOBAL_LIMIT || free - |slice| < FREE_FLOOR
            || !writable then Outcome(s, usage, false)
    else
      Outcome(Written(s, Write(name, slice, true)).(reserve := s.reserve - |slice|), usage + |slice|, true)
  }

  /** The usage all sessions of one runtime share. */
  class Usage {
    var total: nat

    constructor (found: nat)
      ensures total == found
    {
      total := found;
    }
  }

  class RawDiagnostics {
    const usage: Usage
    var bytes: nat
    var failureReserveRemaining: nat
    var originalBytes: nat
    var truncated: bool
    var failed: bool
    var cachedFree: int
    var writes: seq<Write>

    ghost function View(): Store
      reads this
    {
      Store(bytes, failureReserveRemaining, originalBytes, truncated, failed, cachedFree, writes)
    }

    constructor (usage: Usage)
      ensures View() == FRESH && this.usage == usage
    {
      this.usage := usage;
      bytes, failureReserveRemaining, originalBytes := 0, FAILURE_RESERVE, 0;
      truncated, failed, cachedFree, writes := false, false, 0, [];
    }

    method Append(name: string, data: Bytes, observed: bool, refreshed: Option<int>, writable: bool)
      returns (saved: bool)
      modifies this, usage
      ensures Outcome(View(), usage.total, saved) ==
        AppendOutcome(old(View()), old(usage.total), name, data, observed, refreshed, writable)
    {
      if observed {
        originalBytes := originalBytes + |data|;
      }
      if data == [] || failed {
        return false;
      }
      if refreshed.Some? {
        cachedFree := refreshed.value;
      }
      if bytes + |data| > TASK_LIMIT - FAILURE_RESERVE || usage.total + |data| > GLOBAL_LIMIT
         || cachedFree - |data| < FREE_FLOOR || !writable {
        truncated, failed := true, true;
        return false;
      }
      writes := writes + [Write(name, data, false)];
      bytes := bytes + |data|;
      usage.total := usage.total + |data|;
      cachedFree := cachedFree - |data|;
      return true;
    }

    method AppendReserve(name: string, data: Bytes, free: int, writable: bool) returns (saved: bool)
      modifies this, usage
      ensures Outcome(View(), usage.total, saved) ==
        ReserveOutcome(old(View()), old(usage.total), name, data, free, writable)
    {
      var slice := Cut(data, failureReserveRemaining);
      if slice == [] {
        return false;
      }
      if bytes + |slice| > TASK_LIMIT || usage.total + |slice| > GLOBAL_LIMIT || free - |slice| < FREE_FLOOR
         || !writable {
        return false;
      }
      writes := writes + [Write(name, slice, true)];
      bytes := bytes + |slice|;
      failureReserveRemaining := failureReserveRemaining - |slice|;
      usage.total := usage.total + |slice|;
      return true;
    }

    /** What is too long for the reserve is kept at both ends. */
    method ReserveEdges(name: string, raw: Bytes, first: Disk, second: Disk)
      modifies this, usage
      ensures (View(), usage.total) == EdgesOutcome(old(View()), old(usage.total), name, raw, first, second)
    {
      var remaining := failureReserveRemaining;
      if remaining == 0 {
        return;
      }
      if |raw| <= remaining {
        var _ := AppendReserve(name + "-partial.raw", raw, first.free, first.writable);
        return;
      }
      var half := remaining / 2;
      var _ := AppendReserve(name + "-prefix.raw", raw[..half], first.free, first.writable);
      var _ := AppendReserve(name + "-suffix.raw", raw[|raw| - (remaining - half)..], second.free, second.writable);
    }
  }

  /** The disk as one append to the reserve meets it. */
  datatype Disk = Disk(free: int, writable: bool)

  function EdgesOutcome(s: Store, usage: nat, name: string, raw: Bytes, first: Disk, second: Disk): (Store, nat) {
    if s.reserve == 0 then (s, usage)
    else if |raw| <= s.reserve then
      var outcome := ReserveOutcome(s, usage, name + "-partial.raw", raw, first.free, first.writable);
      (outcome.store, outcome.usage)
    else
      var half := s.reserve / 2;
      var prefix := ReserveOutcome(s, usage, name + "-prefix.raw", raw[..half], first.free, first.writable);
      var suffix := ReserveOutcome(prefix.store, prefix.usage, name + "-suffix.raw",
                                   raw[|raw| - (s.reserve - half)..], second.free, second.writable);
      (suffix.store, suffix.usage)
  }

  /** There is room for n bytes under the global limit and on the disk. */
  predicate Room(usage: nat, n: nat, disk: Disk) {
    n == 0 || (usage + n <= GLOBAL_LIMIT && disk.free - n >= FREE_FLOOR && disk.writable)
  }

  lemma ReserveTakes(s: Store, usage: nat, name: string, data: Bytes, disk: Disk)
    requires s.bytes + s.reserve <= TASK_LIMIT && |data| <= s.reserve
    ensures var outcome := ReserveOutcome(s, usage, name, data, disk.free, disk.writable);
            && outcome.saved == (data != [] && Room(usage, |data|, disk))
            && (if outcome.saved then
                  && outcome.store == Written(s, Write(name, data, true)).(reserve := s.reserve - |data|)
                  && outcome.usage == usage + |data|
                else outcome.store == s && outcome.usage == usage)
  {
    assert Cut(data, s.reserve) == data;
  }

  /** A body too long for the reserve uses it up exactly if there is room for both ends, and then what is
      kept is the body's first bytes and its last ones, which do not overlap. */
  lemma EdgesUseUpExactlyWhen(s: Store, usage: nat, name: string, raw: Bytes, first: Disk, second: Disk)
    requires s.bytes + s.reserve <= TASK_LIMIT && 0 < s.reserve < |raw|
    ensures var half, rest := s.reserve / 2, s.reserve - s.reserve / 2;
            var after := EdgesOutcome(s, usage, name, raw, first, second).0;
            && half + rest < |raw|
            && (after.reserve == 0 <==> Room(usage, half, first) && Room(usage + half, rest, second))
            && (after.reserve == 0 ==>
                  after.writes == s.writes
                    + (if half == 0 then [] else [Write(name + "-prefix.raw", raw[..half], true)])
                    + [Write(name + "-suffix.raw", LastBytes(raw, rest), true)])
  {
    var half := s.reserve / 2;
    ReserveTakes(s, usage, name + "-prefix.raw", raw[..half], first);
    var prefix := ReserveOutcome(s, usage, name + "-prefix.raw", raw[..half], first.free, first.writable);
    ReserveTakes(prefix.store, prefix.usage, name + "-suffix.raw", raw[|raw| - (s.reserve - half)..], second);
  }

  /** A shorter one is kept whole exactly if there is room for it. */
  lemma EdgesKeepWholeExactlyWhen(s: Store, usage: nat, name: string, raw: Bytes, first: Disk, second: Disk)
    requires s.bytes + s.reserve <= TASK_LIMIT && 0 < |raw| <= s.reserve
    ensures var after := EdgesOutcome(s, usage, name, raw, first, second).0;
            if Room(usage, |raw|, first) then
              && after.reserve == s.reserve - |raw|
              && after.writes == s.writes + [Write(name + "-partial.raw", raw, true)]
            else after == s
  {
    ReserveTakes(s, usage, name + "-partial.raw", raw, first);
  }

  // --- Any number of tasks and archives side by side. ---

  /** `offers` lists what was offered to ordinary capture, saved or not. */
  datatype Task = Task(store: Store, offers: seq<Write>)

  /** `archived`: the sizes of the archives. `open`: what the archive now being written has reserved; only
      one is written at a time. `oversized`: some archive came out larger than its estimate. */
  datatype World = World(tasks: seq<Task>, usage: nat, archived: nat, open: Option<nat>, oversized: bool)

  datatype Step =
    | Create
    | Offer(i: nat, name: string, data: Bytes, observed: bool, refreshed: Option<int>, writable: bool)
    | Reserve(i: nat, name: string, data: Bytes, free: int, writable: bool)
    | OpenArchive(estimated: nat, free: int)
    | CommitArchive(size: nat)
    | AbandonArchive

  predicate Enabled(w: World, step: Step) {
    match step
    case Create => true
    case Offer(i, _, _, _, _, _) => i < |w.tasks|
    case Reserve(i, _, _, _, _) => i < |w.tasks|
    case OpenArchive(_, _) => w.open == None
    case CommitArchive(_) => w.open.Some?
    case AbandonArchive => w.open.Some?
  }

  function Monus(a: int, b: int): nat {
    if a < b then 0 else a - b
  }

  function Offered(w: World, i: nat, name: string, data: Bytes, outcome: Outcome): World
    requires i < |w.tasks|
  {
    var offers := if data == [] then w.tasks[i].offers else w.tasks[i].offers + [Write(name, data, false)];
    w.(tasks := w.tasks[i := Task(outcome.store, offers)], usage := outcome.usage)
  }

  function Apply(w: World, step: Step): World
    requires Enabled(w, step)
  {
    match step
    case Create => w.(tasks := w.tasks + [Task(FRESH, [])])
    case Offer(i, name, data, observed, refreshed, writable) =>
      Offered(w, i, name, data, AppendOutcome(w.tasks[i].store, w.usage, name, data, observed, refreshed, writable))
    case Reserve(i, name, data, free, writable) =>
      var outcome := ReserveOutcome(w.tasks[i].store, w.usage, name, data, free, writable);
      w.(tasks := w.tasks[i := w.tasks[i].(store := outcome.store)], usage := outcome.usage)
    case OpenArchive(estimated, free) =>
      if w.usage + estimated > GLOBAL_LIMIT || free - estimated < FREE_FLOOR then w
      else w.(usage := w.usage + estimated, open := Some(estimated))
    case CommitArchive(size) =>
      w.(usage := Monus(w.usage + size, w.open.value), archived := w.archived + size, open := None,
         oversized := w.oversized || size > w.open.value)
    case AbandonArchive => w.(usage := Monus(w.usage, w.open.value), open := None)
  }

  function Play(found: nat, steps: seq<Step>): World {
    if steps == [] then World([], found, 0, None, false)
    else
      var w := Play(found, steps[..|steps| - 1]);
      var step := steps[|steps| - 1];
      if Enabled(w, step) then Apply(w, step) else w
  }

  // --- What is written, and what it sums up to. ---

  function Total(writes: seq<Write>, reserved: bool): nat {
    if writes == [] then 0
    else
      var w := writes[|writes| - 1];
      Total(writes[..|writes| - 1], reserved) + if w.reserved == reserved then |w.data| else 0
  }

  function Ordinary(writes: seq<Write>): seq<Write> {
    if writes == [] then []
    else
      var w := writes[|writes| - 1];
      Ordinary(writes[..|writes| - 1]) + if w.reserved then [] else [w]
  }

  function Used(tasks: seq<Task>): nat {
    if tasks == [] then 0 else Used(tasks[..|tasks| - 1]) + tasks[|tasks| - 1].store.bytes
  }

  function OpenBytes(open: Option<nat>): nat {
    if open.Some? then open.value else 0
  }

  lemma WriteSnoc(writes: seq<Write>, w: Write)
    ensures Total(writes + [w], true) == Total(writes, true) + if w.reserved then |w.data| else 0
    ensures Total(writes + [w], false) == Total(writes, false) + if w.reserved then 0 else |w.data|
    ensures Ordinary(writes + [w]) == Ordinary(writes) + if w.reserved then [] else [w]
  {
    assert (writes + [w])[..|writes|] == writes;
  }

  lemma {:induction false} UsedUpdate(tasks: seq<Task>, i: nat, task: Task)
    requires i < |tasks|
    ensures Used(tasks[i := task]) == Used(tasks) - tasks[i].store.bytes + task.store.bytes
    decreases |tasks|
  {
    var front := tasks[..|tasks| - 1];
    if i < |front| {
      UsedUpdate(front, i, task);
      assert tasks[i := task][..|tasks| - 1] == front[i := task];
    } else {
      assert tasks[i := task][..|tasks| - 1] == front;
    }
  }

  // --- What every step keeps. ---

  /** Every byte is counted once, as ordinary or as reserve, and what was saved is a prefix of
      what was offered. */
  ghost predicate TaskFits(task: Task) {
    var s := task.store;
    && s.reserve <= FAILURE_RESERVE && s.bytes + s.reserve <= TASK_LIMIT
    && Total(s.writes, true) == FAILURE_RESERVE - s.reserve
    && s.bytes == Total(s.writes, false) + Total(s.writes, true)
    && Ordinary(s.writes) <= task.offers
    && (!s.failed ==> Ordinary(s.writes) == task.offers)
  }

  lemma AppendFits(
      task: Task, usage: nat, name: string, data: Bytes, observed: bool, refreshed: Option<int>, writable: bool)
    requires TaskFits(task)
    ensures var outcome := AppendOutcome(task.store, usage, name, data, observed, refreshed, writable);
            && TaskFits(Task(outcome.store,
                             if data == [] then task.offers else task.offers + [Write(name, data, false)]))
            && outcome.usage - usage == outcome.store.bytes - task.store.bytes
            && (outcome.usage > usage ==> outcome.usage <= GLOBAL_LIMIT)
  {
    WriteSnoc(task.store.writes, Write(name, data, false));
  }

  lemma ReserveFits(task: Task, usage: nat, name: string, data: Bytes, free: int, writable: bool)
    requires TaskFits(task)
    ensures var outcome := ReserveOutcome(task.store, usage, name, data, free, writable);
            && TaskFits(task.(store := outcome.store))
            && outcome.usage - usage == outcome.store.bytes - task.store.bytes
            && (outcome.usage > usage ==> outcome.usage <= GLOBAL_LIMIT)
  {
    WriteSnoc(task.store.writes, Write(name, Cut(data, task.store.reserve), true));
  }

  ghost predicate Inv(found: nat, w: World) {
    && (forall i :: 0 <= i < |w.tasks| ==> TaskFits(w.tasks[i]))
    && w.usage == found + Used(w.tasks) + w.archived + OpenBytes(w.open)
    && (!w.oversized ==> w.usage <= found || w.usage <= GLOBAL_LIMIT)
  }

  lemma UpdateKeeps(found: nat, w: World, i: nat, task: Task, usage: nat)
    requires Inv(found, w) && i < |w.tasks| && TaskFits(task)
    requires usage - w.usage == task.store.bytes - w.tasks[i].store.bytes
    requires usage > w.usage ==> usage <= GLOBAL_LIMIT
    ensures Inv(found, w.(tasks := w.tasks[i := task], usage := usage))
  {
    UsedUpdate(w.tasks, i, task);
  }

  lemma CreateKeeps(found: nat, w: World)
    requires Inv(found, w)
    ensures Inv(found, Apply(w, Create))
  {
    assert (w.tasks + [Task(FRESH, [])])[..|w.tasks|] == w.tasks;
  }

  lemma ArchiveKeeps(found: nat, w: World, step: Step)
    requires Inv(found, w) && Enabled(w, step)
    requires step.OpenArchive? || step.CommitArchive? || step.AbandonArchive?
    ensures Inv(found, Apply(w, step))
  {
    match step
    case OpenArchive(_, _) =>
    case CommitArchive(_) =>
    case AbandonArchive =>
  }

  lemma StepKeeps(found: nat, w: World, step: Step)
    requires Inv(found, w) && Enabled(w, step)
    ensures Inv(found, Apply(w, step))
  {
    match step
    case Create => CreateKeeps(found, w);
    case Offer(i, name, data, observed, refreshed, writable) =>
      var outcome := AppendOutcome(w.tasks[i].store, w.usage, name, data, observed, refreshed, writable);
      AppendFits(w.tasks[i], w.usage, name, data, observed, refreshed, writable);
      UpdateKeeps(found, w, i, Offered(w, i, name, data, outcome).tasks[i], outcome.usage);
    case Reserve(i, name, data, free, writable) =>
      var outcome := ReserveOutcome(w.tasks[i].store, w.usage, name, data, free, writable);
      ReserveFits(w.tasks[i], w.usage, name, data, free, writable);
      UpdateKeeps(found, w, i, w.tasks[i].(store := outcome.store), outcome.usage);
    case _ => ArchiveKeeps(found, w, step);
  }

  lemma {:induction false} Always(found: nat, steps: seq<Step>)
    ensures Inv(found, Play(found, steps))
  {
    if steps != [] {
      Always(found, steps[..|steps| - 1]);
      var w, step := Play(found, steps[..|steps| - 1]), steps[|steps| - 1];
      if Enabled(w, step) {
        StepKeeps(found, w, step);
      }
    }
  }

  // --- The guarantees. ---

  /** Ordinary capture never touches the reserve, nor the reserve ordinary capture, and the files of a task
      never exceed its limit. */
  lemma {:induction false} TaskWithinLimits(found: nat, steps: seq<Step>, i: nat)
    requires i < |Play(found, steps).tasks|
    ensures var s := Play(found, steps).tasks[i].store;
            && Total(s.writes, false) <= TASK_LIMIT - FAILURE_RESERVE
            && Total(s.writes, true) == FAILURE_RESERVE - s.reserve <= FAILURE_RESERVE
            && s.bytes == Total(s.writes, false) + Total(s.writes, true) <= TASK_LIMIT
  {
    Always(found, steps);
  }

  /** So TASK_LIMIT never stands in the way of the reserve: only the global limit, the disk or an empty
      reserve can. */
  lemma {:induction false} ReserveIsRefusedOnlyElsewhere(
      found: nat, steps: seq<Step>, i: nat, name: string, data: Bytes, free: int)
    requires i < |Play(found, steps).tasks|
    ensures var w := Play(found, steps);
            var slice := Cut(data, w.tasks[i].store.reserve);
            && w.tasks[i].store.bytes + |slice| <= TASK_LIMIT
            && (ReserveOutcome(w.tasks[i].store, w.usage, name, data, free, true).saved <==>
                  slice != [] && w.usage + |slice| <= GLOBAL_LIMIT && free - |slice| >= FREE_FLOOR)
  {
    Always(found, steps);
    assert TaskFits(Play(found, steps).tasks[i]);
  }

  lemma PlaySnoc(found: nat, steps: seq<Step>, step: Step)
    ensures Play(found, steps + [step])
         == var w := Play(found, steps); if Enabled(w, step) then Apply(w, step) else w
  {
    assert (steps + [step])[..|steps|] == steps;
  }

  /** Ordinary capture of a task is refused only for want of room: an offer is saved exactly if nothing has failed
      before, there is something to save, the disk takes it, and everything written so far leaves room for it beside
      the reserve, under the global limit and on the disk. Any other offer of at least a byte ends the capture for
      good, and no file changes. */
  lemma {:induction false} OfferIsSavedExactlyWhen(
      found: nat, steps: seq<Step>, i: nat, name: string, data: Bytes, observed: bool, refreshed: Option<int>,
      writable: bool)
    requires i < |Play(found, steps).tasks|
    ensures var w := Play(found, steps);
            var next := Play(found, steps + [Offer(i, name, data, observed, refreshed, writable)]);
            var s := w.tasks[i].store;
            var free := if refreshed.Some? then refreshed.value else s.cachedFree;
            var saved := !s.failed && data != [] && writable
              && Total(s.writes, false) + Total(s.writes, true) + |data| <= TASK_LIMIT - FAILURE_RESERVE
              && w.usage + |data| <= GLOBAL_LIMIT && free - |data| >= FREE_FLOOR;
            && |next.tasks| == |w.tasks| && (forall j :: 0 <= j < |w.tasks| && j != i ==> next.tasks[j] == w.tasks[j])
            && next.tasks[i].store.writes == (if saved then s.writes + [Write(name, data, false)] else s.writes)
            && next.tasks[i].store.failed == (s.failed || (data != [] && !saved))
            && next.tasks[i].store.cachedFree
               == (if saved then free - |data| else if s.failed || data == [] then s.cachedFree else free)
            && next.tasks[i].store.observed == (if observed then s.observed + |data| else s.observed)
            && next.usage == (if saved then w.usage + |data| else w.usage)
  {
    Always(found, steps);
    assert TaskFits(Play(found, steps).tasks[i]);
    PlaySnoc(found, steps, Offer(i, name, data, observed, refreshed, writable));
  }

  /** An archive is begun exactly if its estimate fits beside every byte known, and on the disk. */
  lemma {:induction false} ArchiveOpensExactlyWhen(found: nat, steps: seq<Step>, estimated: nat, free: int)
    requires Play(found, steps).open == None
    ensures var w := Play(found, steps);
            Play(found, steps + [OpenArchive(estimated, free)])
              == if found + Used(w.tasks) + w.archived + estimated <= GLOBAL_LIMIT && free - estimated >= FREE_FLOOR
                 then w.(usage := w.usage + estimated, open := Some(estimated)) else w
  {
    Always(found, steps);
    PlaySnoc(found, steps, OpenArchive(estimated, free));
  }

  /** The global usage is exactly what was found at the start, plus every byte of every task, plus the
      archives, plus what the open one has reserved; so giving a reservation back never has to be clamped. */
  lemma {:induction false} UsageIsExact(found: nat, steps: seq<Step>)
    ensures var w := Play(found, steps);
            w.usage == found + Used(w.tasks) + w.archived + OpenBytes(w.open)
    ensures OpenBytes(Play(found, steps).open) <= Play(found, steps).usage
  {
    Always(found, steps);
  }

  /** It never passes the global limit as long as no archive comes out larger than estimated. */
  lemma {:induction false} UsageWithinLimit(found: nat, steps: seq<Step>)
    requires !Play(found, steps).oversized && found <= GLOBAL_LIMIT
    ensures Play(found, steps).usage <= GLOBAL_LIMIT
  {
    Always(found, steps);
  }

  /** And a larger one can push it over: the size is not checked again at the end. */
  lemma OversizedCanOverrun(estimated: nat, size: nat)
    requires estimated <= GLOBAL_LIMIT && size > estimated
    ensures exists found: nat, steps :: found <= GLOBAL_LIMIT && Play(found, steps).usage > GLOBAL_LIMIT
                                && Play(found, steps).archived == size
  {
    var found: nat := GLOBAL_LIMIT - estimated;
    var held := [OpenArchive(estimated, FREE_FLOOR + estimated)];
    assert held[..0] == [];
    assert Play(found, held).open == Some(estimated);
    var steps := held + [CommitArchive(size)];
    assert steps[..1] == held;
    assert Play(found, steps).usage == GLOBAL_LIMIT + size - estimated;
  }

  /** What was appended to one file, in order. */
  function FileOf(writes: seq<Write>, name: string): Bytes {
    if writes == [] then []
    else
      var w := writes[|writes| - 1];
      FileOf(writes[..|writes| - 1], name) + if w.name == name then w.data else []
  }

  lemma {:induction false} FileGrows(left: seq<Write>, writes: seq<Write>, name: string)
    requires left <= writes
    ensures FileOf(left, name) <= FileOf(writes, name)
  {
    if |left| == |writes| {
      assert left == writes;
    } else {
      FileGrows(left, writes[..|writes| - 1], name);
    }
  }

  /** The first failure is final: every ordinary file is a prefix of what was offered for it, and all of it
      as long as nothing has failed. */
  lemma {:induction false} SavedIsPrefix(found: nat, steps: seq<Step>, i: nat, name: string)
    requires i < |Play(found, steps).tasks|
    ensures var task := Play(found, steps).tasks[i];
            && FileOf(Ordinary(task.store.writes), name) <= FileOf(task.offers, name)
            && (!task.store.failed ==> FileOf(Ordinary(task.store.writes), name) == FileOf(task.offers, name))
  {
    Always(found, steps);
    var task := Play(found, steps).tasks[i];
    assert TaskFits(task);
    FileGrows(Ordinary(task.store.writes), task.offers, name);
  }
}
