/** Concurrent requests of one session: at most one forward of a request at a time, no replay of a
    failed one, and one retrieval budget shared by all. */
module GatewayAdmission {
  import opened ByteStrings
  import opened Options
  import opened ResponseValidation

  type Fingerprint = string
  type CallId = string

  // --- The gateway's maps, and what each locked section does to them. ---

  datatype Gate = Gate(active: bool, failed: map<Fingerprint, CallId>, inflight: map<Fingerprint, CallId>)

  datatype Decision = Gone | ReplayBlocked(first: CallId) | AlreadyRunning | Admitted

  function Decide(gate: Gate, fp: Fingerprint, expired: bool): Decision {
    if !gate.active || expired then Gone
    else if fp in gate.failed then ReplayBlocked(gate.failed[fp])
    else if fp in gate.inflight then AlreadyRunning
    else Admitted
  }

  /** setdefault: the first entry of a fingerprint is never overwritten. */
  function Fail(gate: Gate, fp: Fingerprint, call: CallId): Gate {
    if fp in gate.failed then gate else gate.(failed := gate.failed[fp := call])
  }

  function Release(gate: Gate, fp: Fingerprint, call: CallId, failed: bool): Gate {
    var released := gate.(inflight := gate.inflight - {fp});
    if failed then Fail(released, fp, call) else released
  }

  class NativeGateway {
    var active: bool
    var failed: map<Fingerprint, CallId>
    var inflight: map<Fingerprint, CallId>
    var lastCallId: CallId
    var failureSignalled: bool

    ghost function View(): Gate
      reads this
    {
      Gate(active, failed, inflight)
    }

    constructor ()
      ensures View() == Gate(true, map[], map[]) && !failureSignalled
    {
      active, failed, inflight, lastCallId, failureSignalled := true, map[], map[], "", false;
    }

    method Admit(fp: Fingerprint, call: CallId, expired: bool) returns (decision: Decision)
      modifies this`inflight, this`lastCallId
      ensures decision == Decide(old(View()), fp, expired)
      ensures View() == if decision == Admitted then old(View()).(inflight := old(inflight)[fp := call])
                        else old(View())
      ensures lastCallId == if decision == Admitted then call else old(lastCallId)
    {
      if !active || expired {
        return Gone;
      }
      if fp in failed {
        return ReplayBlocked(failed[fp]);
      }
      if fp in inflight {
        return AlreadyRunning;
      }
      inflight := inflight[fp := call];
      lastCallId := call;
      return Admitted;
    }

    method MarkFailed(fp: Fingerprint, call: CallId)
      modifies this`failed
      ensures View() == Fail(old(View()), fp, call)
    {
      if fp !in failed {
        failed := failed[fp := call];
      }
    }

    method Complete(fp: Fingerprint, call: CallId, isFailed: bool)
      modifies this`failed, this`inflight
      ensures View() == Release(old(View()), fp, call, isFailed)
    {
      inflight := inflight - {fp};
      if isFailed && fp !in failed {
        failed := failed[fp := call];
      }
    }

    /** Only the first failure of a session is handed on. */
    method NotifyFailure() returns (handedOn: bool)
      modifies this`failureSignalled
      ensures handedOn == !old(failureSignalled) && failureSignalled
    {
      handedOn := !failureSignalled;
      failureSignalled := true;
    }

    method Close()
      modifies this`active
      ensures View() == old(View()).(active := false)
    {
      active := false;
    }
  }

  // --- Handlers running side by side. ---

  datatype ToolName = Read | Grep | Glob | StructuredOutput

  /** Where a handler is. Armed: its connection is registered and the gateway was still open then.
      Dead: it raised between admission and the guarded section, so nothing is ever released. */
  datatype Phase = Arrived | Prepared | Waiting | Armed | Sent | Ended(ok: bool) | Over | Dead

  datatype Handler = Handler(
    fp: Fingerprint, call: CallId, phase: Phase, finishing: bool, tools: set<ToolName>, sent: bool, validated: bool)

  datatype Event =
    | Admission(h: nat, fp: Fingerprint)
    | Forward(h: nat, fp: Fingerprint, tools: set<ToolName>)
    | Finish(h: nat, fp: Fingerprint, ok: bool)
    | Grant(h: nat, requested: nat)
    | Closing

  datatype World = World(gate: Gate, used: nat, handlers: map<nat, Handler>, log: seq<Event>)

  /** What one handler does next, as far as other handlers can see it. */
  datatype Step =
    | Arrive(h: nat, fp: Fingerprint, call: CallId)
    | Prepare(h: nat, nearDeadline: bool, declared: set<ToolName>)
    | Admit(h: nat, expired: bool)
    | RaiseEarly(h: nat)
    | Arm(h: nat)
    | Send(h: nat)
    | Validate(h: nat, text: nat, calls: seq<Call>)
    | End(h: nat, ok: bool)
    | MarkFailed(h: nat)
    | Complete(h: nat)
    | Close

  const INITIAL := World(Gate(true, map[], map[]), 0, map[], [])

  predicate At(w: World, h: nat, phase: Phase) {
    h in w.handlers && w.handlers[h].phase == phase
  }

  predicate Enabled(w: World, step: Step) {
    match step
    case Arrive(h, _, _) => h !in w.handlers
    case Prepare(h, _, _) => At(w, h, Arrived)
    case Admit(h, _) => At(w, h, Prepared)
    case RaiseEarly(h) => At(w, h, Waiting)
    case Arm(h) => At(w, h, Waiting)
    case Send(h) => At(w, h, Armed)
    case Validate(h, _, _) => At(w, h, Sent) && !w.handlers[h].validated
    case End(h, ok) => At(w, h, Sent) || (At(w, h, Armed) && !ok)
    case MarkFailed(h) => At(w, h, Ended(false))
    case Complete(h) => At(w, h, Ended(true)) || At(w, h, Ended(false))
    case Close => true
  }

  /** The budget is read here without the lock; what is decided is only what to ask the model for. */
  function Finishing(policy: Policy, used: nat, nearDeadline: bool): bool {
    policy.budget > 0 && !policy.diffOnly && (used >= policy.budget || nearDeadline)
  }

  function OfferedTools(policy: Policy, finishing: bool, declared: set<ToolName>): set<ToolName> {
    if policy.diffOnly then {} else if finishing then declared * {StructuredOutput} else declared
  }

  function Move(w: World, h: nat, phase: Phase): World
    requires h in w.handlers
  {
    w.(handlers := w.handlers[h := w.handlers[h].(phase := phase)])
  }

  function Validated(w: World, h: nat, verdict: Verdict): World
    requires h in w.handlers
  {
    var handler := w.handlers[h].(validated := true, phase := if verdict.Granted? then Sent else Ended(false));
    w.(handlers := w.handlers[h := handler],
       log := if verdict.Granted? then w.log + [Grant(h, verdict.requested)] else w.log)
  }

  function Apply(policy: Policy, w: World, step: Step): World
    requires Enabled(w, step)
  {
    match step
    case Arrive(h, fp, call) =>
      w.(handlers := w.handlers[h := Handler(fp, call, Arrived, false, {}, false, false)])
    case Prepare(h, nearDeadline, declared) =>
      var finishing := Finishing(policy, w.used, nearDeadline);
      w.(handlers := w.handlers[h := w.handlers[h].(
          phase := Prepared, finishing := finishing, tools := OfferedTools(policy, finishing, declared))])
    case Admit(h, expired) =>
      var fp := w.handlers[h].fp;
      if Decide(w.gate, fp, expired) == Admitted then
        Move(w, h, Waiting).(gate := w.gate.(inflight := w.gate.inflight[fp := w.handlers[h].call]),
                             log := w.log + [Admission(h, fp)])
      else Move(w, h, Over)
    case RaiseEarly(h) => Move(w, h, Dead)
    case Arm(h) => Move(w, h, if w.gate.active then Armed else Ended(false))
    case Send(h) =>
      w.(handlers := w.handlers[h := w.handlers[h].(phase := Sent, sent := true)],
         log := w.log + [Forward(h, w.handlers[h].fp, w.handlers[h].tools)])
    case Validate(h, text, calls) =>
      var verdict := Judge(policy, w.used, text, calls, !w.handlers[h].finishing);
      Validated(w, h, verdict).(used := w.used + Charge(policy, verdict))
    case End(h, ok) => Move(w, h, Ended(ok))
    case MarkFailed(h) => w.(gate := Fail(w.gate, w.handlers[h].fp, w.handlers[h].call))
    case Complete(h) =>
      var handler, ok := w.handlers[h], w.handlers[h].phase == Ended(true);
      Move(w, h, Over).(gate := Release(w.gate, handler.fp, handler.call, !ok),
                        log := w.log + [Finish(h, handler.fp, ok)])
    case Close => w.(gate := w.gate.(active := false), log := w.log + [Closing])
  }

  /** Any interleaving: a list of steps, those not possible at their turn being skipped. */
  function Play(policy: Policy, steps: seq<Step>): World {
    if steps == [] then INITIAL
    else
      var w := Play(policy, steps[..|steps| - 1]);
      var step := steps[|steps| - 1];
      if Enabled(w, step) then Apply(policy, w, step) else w
  }

  // --- The history of one fingerprint, read off the log. ---

  datatype Track = Idle | Running(h: nat, sent: bool) | Burnt(h: nat) | Broken

  function NextTrack(track: Track, fp: Fingerprint, e: Event): Track {
    match e
    case Admission(h, f) =>
      if f != fp then track else if track == Idle then Running(h, false) else Broken
    case Forward(h, f, _) =>
      if f != fp then track else if track == Running(h, false) then Running(h, true) else Broken
    case Finish(h, f, ok) =>
      if f != fp then track
      else if !track.Running? || track.h != h then Broken
      else if ok then (if track.sent then Idle else Broken)
      else Burnt(h)
    case Grant(_, _) => track
    case Closing => track
  }

  /** Admitted, forwarded, finished well, over and over; then possibly one that fails, and nothing more. */
  function TrackOf(log: seq<Event>, fp: Fingerprint): Track {
    if log == [] then Idle else NextTrack(TrackOf(log[..|log| - 1], fp), fp, log[|log| - 1])
  }

  lemma TrackSnoc(log: seq<Event>, e: Event, fp: Fingerprint)
    ensures TrackOf(log + [e], fp) == NextTrack(TrackOf(log, fp), fp, e)
  {
    assert (log + [e])[..|log|] == log;
  }

  predicate Busy(phase: Phase) {
    phase == Waiting || phase == Armed || phase == Sent || phase.Ended? || phase == Dead
  }

  /** The maps, the handlers and the log tell the same story about a fingerprint. */
  ghost predicate Consistent(w: World, fp: Fingerprint) {
    var gate := w.gate;
    match TrackOf(w.log, fp)
    case Idle => fp !in gate.inflight && fp !in gate.failed
    case Running(h, sent) =>
      && h in w.handlers && w.handlers[h].fp == fp && Busy(w.handlers[h].phase) && w.handlers[h].sent == sent
      && fp in gate.inflight && gate.inflight[fp] == w.handlers[h].call
      && (fp in gate.failed ==> gate.failed[fp] == w.handlers[h].call && w.handlers[h].phase == Ended(false))
    case Burnt(h) =>
      && h in w.handlers && w.handlers[h].fp == fp && w.handlers[h].phase == Over
      && fp !in gate.inflight && fp in gate.failed && gate.failed[fp] == w.handlers[h].call
    case Broken => false
  }

  ghost predicate Owns(w: World, h: nat) {
    h in w.handlers && Busy(w.handlers[h].phase) ==>
      TrackOf(w.log, w.handlers[h].fp) == Running(h, w.handlers[h].sent)
  }

  ghost predicate PhaseFits(handler: Handler) {
    match handler.phase
    case Sent => handler.sent
    case Ended(ok) => ok ==> handler.sent
    case Over => true
    case _ => !handler.sent
  }

  ghost predicate Inv(w: World) {
    && (forall fp: Fingerprint :: Consistent(w, fp))
    && (forall h: nat :: Owns(w, h))
    && (forall h :: h in w.handlers ==> PhaseFits(w.handlers[h]))
  }

  function Actor(step: Step): int {
    match step
    case Close => -1
    case Arrive(h, _, _) => h
    case Prepare(h, _, _) => h
    case Admit(h, _) => h
    case RaiseEarly(h) => h
    case Arm(h) => h
    case Send(h) => h
    case Validate(h, _, _) => h
    case End(h, _) => h
    case MarkFailed(h) => h
    case Complete(h) => h
  }

  ghost predicate OthersStay(w: World, next: World, h: int) {
    forall g: nat :: g != h ==>
      ((g in next.handlers <==> g in w.handlers) && (g in w.handlers ==> next.handlers[g] == w.handlers[g]))
  }

  /** Everything but handler h is as it was, and so is fingerprint fp. */
  ghost predicate Elsewhere(w: World, next: World, h: int, fp: Fingerprint) {
    && OthersStay(w, next, h)
    && (fp in next.gate.inflight <==> fp in w.gate.inflight)
    && (fp in w.gate.inflight ==> next.gate.inflight[fp] == w.gate.inflight[fp])
    && (fp in next.gate.failed <==> fp in w.gate.failed)
    && (fp in w.gate.failed ==> next.gate.failed[fp] == w.gate.failed[fp])
    && TrackOf(next.log, fp) == TrackOf(w.log, fp)
  }

  lemma ElsewhereConsistent(w: World, next: World, h: int, fp: Fingerprint)
    requires Consistent(w, fp) && Elsewhere(w, next, h, fp)
    requires h >= 0 && h in w.handlers ==> w.handlers[h].fp != fp
    ensures Consistent(next, fp)
  {
  }

  predicate About(e: Event, fp: Fingerprint) {
    match e
    case Admission(_, f) => f == fp
    case Forward(_, f, _) => f == fp
    case Finish(_, f, _) => f == fp
    case _ => false
  }

  lemma LogElsewhere(w: World, e: Event, fp: Fingerprint)
    requires !About(e, fp)
    ensures TrackOf(w.log + [e], fp) == TrackOf(w.log, fp)
  {
    TrackSnoc(w.log, e, fp);
  }

  lemma StepElsewhere(policy: Policy, w: World, step: Step, fp: Fingerprint)
    requires Enabled(w, step) && !step.Validate?
    requires Actor(step) in w.handlers ==> w.handlers[Actor(step)].fp != fp
    ensures Elsewhere(w, Apply(policy, w, step), Actor(step), fp)
  {
    match step
    case Admit(h, _) => LogElsewhere(w, Admission(h, w.handlers[h].fp), fp);
    case Send(h) => LogElsewhere(w, Forward(h, w.handlers[h].fp, w.handlers[h].tools), fp);
    case Complete(h) => LogElsewhere(w, Finish(h, w.handlers[h].fp, w.handlers[h].phase == Ended(true)), fp);
    case Close => LogElsewhere(w, Closing, fp);
    case _ =>
  }

  lemma ValidatedElsewhere(w: World, h: nat, verdict: Verdict, used: nat, fp: Fingerprint)
    requires h in w.handlers
    ensures Elsewhere(w, Validated(w, h, verdict).(used := used), h, fp)
  {
    if verdict.Granted? {
      TrackSnoc(w.log, Grant(h, verdict.requested), fp);
    }
  }

  /** The step's own handler and fingerprint. */
  ghost predicate OwnFits(w: World, h: nat) {
    h in w.handlers && Consistent(w, w.handlers[h].fp) && Owns(w, h) && PhaseFits(w.handlers[h])
  }

  lemma AdmitFits(policy: Policy, w: World, h: nat, expired: bool)
    requires OwnFits(w, h) && Enabled(w, Admit(h, expired))
    ensures OwnFits(Apply(policy, w, Admit(h, expired)), h)
  {
    var fp, call := w.handlers[h].fp, w.handlers[h].call;
    if Decide(w.gate, fp, expired) == Admitted {
      TrackSnoc(w.log, Admission(h, fp), fp);
      assert TrackOf(w.log, fp) == Idle;
      var held := w.gate.inflight[fp := call];
      assert fp in held && held[fp] == call;
    }
  }

  lemma SendFits(policy: Policy, w: World, h: nat)
    requires OwnFits(w, h) && Enabled(w, Send(h))
    ensures OwnFits(Apply(policy, w, Send(h)), h)
  {
    TrackSnoc(w.log, Forward(h, w.handlers[h].fp, w.handlers[h].tools), w.handlers[h].fp);
  }

  lemma CompleteFits(policy: Policy, w: World, h: nat)
    requires OwnFits(w, h) && Enabled(w, Complete(h))
    ensures OwnFits(Apply(policy, w, Complete(h)), h)
  {
    var handler := w.handlers[h];
    var ok, gate := handler.phase == Ended(true), w.gate;
    TrackSnoc(w.log, Finish(h, handler.fp, ok), handler.fp);
    var next := Release(gate, handler.fp, handler.call, !ok);
    assert handler.fp !in next.inflight;
    assert ok ==> handler.fp !in next.failed;
    assert !ok ==> handler.fp in next.failed && next.failed[handler.fp] == handler.call;
  }

  lemma ValidatedFits(w: World, h: nat, verdict: Verdict, used: nat)
    requires OwnFits(w, h) && At(w, h, Sent)
    ensures OwnFits(Validated(w, h, verdict).(used := used), h)
  {
    if verdict.Granted? {
      TrackSnoc(w.log, Grant(h, verdict.requested), w.handlers[h].fp);
    }
  }

  lemma OtherFits(policy: Policy, w: World, step: Step, h: nat)
    requires Actor(step) == h && OwnFits(w, h) && Enabled(w, step)
    requires !step.Admit? && !step.Send? && !step.Complete? && !step.Validate?
    ensures OwnFits(Apply(policy, w, step), h)
  {
  }

  lemma ActorFits(policy: Policy, w: World, step: Step)
    requires Inv(w) && Enabled(w, step) && Actor(step) >= 0 && Actor(step) in w.handlers
    ensures OwnFits(Apply(policy, w, step), Actor(step))
  {
    var h: nat := Actor(step);
    assert Consistent(w, w.handlers[h].fp) && Owns(w, h);
    match step
    case Admit(_, expired) => AdmitFits(policy, w, h, expired);
    case Send(_) => SendFits(policy, w, h);
    case Complete(_) => CompleteFits(policy, w, h);
    case Validate(_, text, calls) =>
      var verdict := Judge(policy, w.used, text, calls, !w.handlers[h].finishing);
      ValidatedFits(w, h, verdict, w.used + Charge(policy, verdict));
    case _ => OtherFits(policy, w, step, h);
  }

  lemma ApplyElsewhere(policy: Policy, w: World, step: Step, fp: Fingerprint)
    requires Enabled(w, step)
    requires Actor(step) in w.handlers ==> w.handlers[Actor(step)].fp != fp
    ensures Elsewhere(w, Apply(policy, w, step), Actor(step), fp)
  {
    match step
    case Validate(h, text, calls) =>
      var verdict := Judge(policy, w.used, text, calls, !w.handlers[h].finishing);
      ValidatedElsewhere(w, h, verdict, w.used + Charge(policy, verdict), fp);
    case _ => StepElsewhere(policy, w, step, fp);
  }

  lemma StepKeepsConsistent(policy: Policy, w: World, step: Step, fp: Fingerprint)
    requires Inv(w) && Enabled(w, step)
    ensures Consistent(Apply(policy, w, step), fp)
  {
    var h := Actor(step);
    assert Consistent(w, fp);
    if h in w.handlers && w.handlers[h].fp == fp {
      ActorFits(policy, w, step);
      HandlerStays(policy, w, step);
    } else {
      ApplyElsewhere(policy, w, step, fp);
      ElsewhereConsistent(w, Apply(policy, w, step), h, fp);
    }
  }

  lemma HandlerStays(policy: Policy, w: World, step: Step)
    requires Enabled(w, step) && Actor(step) >= 0 && Actor(step) in w.handlers
    ensures var h := Actor(step);
            h in Apply(policy, w, step).handlers && Apply(policy, w, step).handlers[h].fp == w.handlers[h].fp
  {
  }

  lemma StepOthersStay(policy: Policy, w: World, step: Step)
    requires Enabled(w, step)
    ensures OthersStay(w, Apply(policy, w, step), Actor(step))
  {
    match step
    case Validate(h, text, calls) =>
    case _ =>
  }

  /** Two busy handlers never share a fingerprint, so one cannot write the other's history. */
  lemma HistoryOfAnother(policy: Policy, w: World, step: Step, g: nat)
    requires Inv(w) && Enabled(w, step) && g != Actor(step)
    requires g in w.handlers && Busy(w.handlers[g].phase)
    ensures TrackOf(Apply(policy, w, step).log, w.handlers[g].fp) == TrackOf(w.log, w.handlers[g].fp)
  {
    var fp, h := w.handlers[g].fp, Actor(step);
    assert Owns(w, g) && Consistent(w, fp);
    if h in w.handlers && w.handlers[h].fp == fp {
      assert Owns(w, h);
      assert Apply(policy, w, step).log == w.log;
    } else {
      ApplyElsewhere(policy, w, step, fp);
    }
  }

  lemma StepKeepsOwns(policy: Policy, w: World, step: Step, g: nat)
    requires Inv(w) && Enabled(w, step)
    ensures Owns(Apply(policy, w, step), g)
  {
    var h := Actor(step);
    if g == h {
      if h in w.handlers {
        ActorFits(policy, w, step);
      }
    } else {
      assert Owns(w, g);
      StepOthersStay(policy, w, step);
      if g in w.handlers && Busy(w.handlers[g].phase) {
        HistoryOfAnother(policy, w, step, g);
      }
    }
  }

  lemma StepKeepsInv(policy: Policy, w: World, step: Step)
    requires Inv(w) && Enabled(w, step)
    ensures Inv(Apply(policy, w, step))
  {
    forall fp: Fingerprint
      ensures Consistent(Apply(policy, w, step), fp)
    {
      StepKeepsConsistent(policy, w, step, fp);
    }
    forall h: nat
      ensures Owns(Apply(policy, w, step), h)
    {
      StepKeepsOwns(policy, w, step, h);
    }
    StepOthersStay(policy, w, step);
    if Actor(step) in w.handlers {
      ActorFits(policy, w, step);
    }
  }

  lemma {:induction false} Always(policy: Policy, steps: seq<Step>)
    ensures Inv(Play(policy, steps))
  {
    if steps != [] {
      var front, step := steps[..|steps| - 1], steps[|steps| - 1];
      Always(policy, front);
      if Enabled(Play(policy, front), step) {
        StepKeepsInv(policy, Play(policy, front), step);
      }
    }
  }

  // --- What the log of any interleaving says. ---

  lemma {:induction false} BrokenForGood(log: seq<Event>, fp: Fingerprint, k: nat)
    requires k <= |log| && TrackOf(log[..k], fp) == Broken
    ensures TrackOf(log, fp) == Broken
  {
    if k == |log| {
      assert log[..k] == log;
    } else {
      assert log[..|log| - 1][..k] == log[..k];
      BrokenForGood(log[..|log| - 1], fp, k);
    }
  }

  lemma TrackNext(log: seq<Event>, fp: Fingerprint, i: nat)
    requires i < |log|
    ensures TrackOf(log[..i + 1], fp) == NextTrack(TrackOf(log[..i], fp), fp, log[i])
  {
    assert log[..i + 1][..i] == log[..i];
  }

  lemma {:induction false} LogIsSound(policy: Policy, steps: seq<Step>, fp: Fingerprint, k: nat)
    requires k <= |Play(policy, steps).log|
    ensures TrackOf(Play(policy, steps).log[..k], fp) != Broken
  {
    var w := Play(policy, steps);
    Always(policy, steps);
    assert Consistent(w, fp);
    if TrackOf(w.log[..k], fp) == Broken {
      BrokenForGood(w.log, fp, k);
    }
  }

  /** A forward keeps its fingerprint until the log shows its end. */
  lemma {:induction false} RunningUntilFinished(
      policy: Policy, steps: seq<Step>, fp: Fingerprint, h: nat, i: nat, j: nat)
    requires i <= j <= |Play(policy, steps).log|
    requires TrackOf(Play(policy, steps).log[..i], fp) == Running(h, true)
    ensures TrackOf(Play(policy, steps).log[..j], fp) == Running(h, true)
         || exists k, ok :: i <= k < j && Play(policy, steps).log[k] == Finish(h, fp, ok)
    decreases j - i
  {
    var log := Play(policy, steps).log;
    if i < j {
      TrackNext(log, fp, i);
      LogIsSound(policy, steps, fp, i + 1);
      if TrackOf(log[..i + 1], fp) == Running(h, true) {
        RunningUntilFinished(policy, steps, fp, h, i + 1, j);
      } else {
        assert log[i].Finish?;
      }
    }
  }

  /** Once a request has failed nothing happens under its fingerprint any more. */
  lemma {:induction false} BurntForGood(policy: Policy, steps: seq<Step>, fp: Fingerprint, h: nat, i: nat, j: nat)
    requires i <= j <= |Play(policy, steps).log|
    requires TrackOf(Play(policy, steps).log[..i], fp) == Burnt(h)
    ensures TrackOf(Play(policy, steps).log[..j], fp) == Burnt(h)
    decreases j - i
  {
    if i < j {
      TrackNext(Play(policy, steps).log, fp, i);
      LogIsSound(policy, steps, fp, i + 1);
      BurntForGood(policy, steps, fp, h, i + 1, j);
    }
  }

  /** A failure is the last thing the log holds about a request: at most one of its forwards fails. */
  lemma {:induction false} FailureIsLast(policy: Policy, steps: seq<Step>, fp: Fingerprint, i: nat, j: nat)
    requires i < j < |Play(policy, steps).log|
    requires Play(policy, steps).log[i].Finish? && Play(policy, steps).log[i].fp == fp && !Play(policy, steps).log[i].ok
    ensures !About(Play(policy, steps).log[j], fp)
  {
    var log := Play(policy, steps).log;
    TrackNext(log, fp, i);
    LogIsSound(policy, steps, fp, i + 1);
    BurntForGood(policy, steps, fp, log[i].h, i + 1, j);
    TrackNext(log, fp, j);
    LogIsSound(policy, steps, fp, j + 1);
  }

  /** Two forwards of the same request never overlap: the first has finished, and well, in between. */
  lemma {:induction false} ForwardsDoNotOverlap(policy: Policy, steps: seq<Step>, fp: Fingerprint, i: nat, j: nat)
    requires i < j < |Play(policy, steps).log|
    requires Play(policy, steps).log[i].Forward? && Play(policy, steps).log[i].fp == fp
    requires Play(policy, steps).log[j].Forward? && Play(policy, steps).log[j].fp == fp
    ensures exists k :: i < k < j && Play(policy, steps).log[k] == Finish(Play(policy, steps).log[i].h, fp, true)
  {
    var log := Play(policy, steps).log;
    var h := log[i].h;
    TrackNext(log, fp, i);
    LogIsSound(policy, steps, fp, i + 1);
    RunningUntilFinished(policy, steps, fp, h, i + 1, j);
    TrackNext(log, fp, j);
    LogIsSound(policy, steps, fp, j + 1);
    var k, ok :| i + 1 <= k < j && log[k] == Finish(h, fp, ok);
    if !ok {
      FailureIsLast(policy, steps, fp, k, j);
    }
  }

  /** The call id a replay is answered with is that of the first failure, for good. */
  lemma {:induction false} FirstFailureKept(policy: Policy, steps: seq<Step>, n: nat, fp: Fingerprint)
    requires n <= |steps| && fp in Play(policy, steps[..n]).gate.failed
    ensures fp in Play(policy, steps).gate.failed
    ensures Play(policy, steps).gate.failed[fp] == Play(policy, steps[..n]).gate.failed[fp]
  {
    if n == |steps| {
      assert steps[..n] == steps;
    } else {
      assert steps[..|steps| - 1][..n] == steps[..n];
      FirstFailureKept(policy, steps[..|steps| - 1], n, fp);
    }
  }

  ghost predicate ClosedIsQuiet(w: World) {
    && (Closing in w.log <==> !w.gate.active)
    && forall i, j :: 0 <= i < j < |w.log| && w.log[i] == Closing ==> !w.log[j].Admission?
  }

  lemma {:induction false} ClosedStaysQuiet(policy: Policy, steps: seq<Step>)
    ensures ClosedIsQuiet(Play(policy, steps))
  {
    if steps != [] {
      ClosedStaysQuiet(policy, steps[..|steps| - 1]);
      var w, step := Play(policy, steps[..|steps| - 1]), steps[|steps| - 1];
      if Enabled(w, step) {
        var next := Apply(policy, w, step);
        assert next.log == w.log || exists e :: next.log == w.log + [e];
        assert next.gate.active <==> w.gate.active && !step.Close?;
      }
    }
  }

  /** Nothing is admitted after the gateway has closed. */
  lemma {:induction false} NothingAfterClose(policy: Policy, steps: seq<Step>, i: nat, j: nat)
    requires i < j < |Play(policy, steps).log| && Play(policy, steps).log[i] == Closing
    ensures !Play(policy, steps).log[j].Admission?
  {
    ClosedStaysQuiet(policy, steps);
  }

  /** Nor is a connection opened: a handler that is armed behind the close was armed before it. */
  lemma {:induction false} NothingIsArmedAfterClose(policy: Policy, steps: seq<Step>, n: nat, h: nat)
    requires n <= |steps| && Closing in Play(policy, steps[..n]).log && At(Play(policy, steps), h, Armed)
    ensures At(Play(policy, steps[..n]), h, Armed)
  {
    if n == |steps| {
      assert steps[..n] == steps;
    } else {
      var front, step := steps[..|steps| - 1], steps[|steps| - 1];
      assert front[..n] == steps[..n];
      var w := Play(policy, front);
      ClosedStaysQuiet(policy, front);
      UsedGrows(policy, front, n);
      if Enabled(w, step) {
        StepOthersStay(policy, w, step);
      }
      NothingIsArmedAfterClose(policy, front, n, h);
    }
  }

  // --- Which requests are let in. ---

  /** The last thing the log holds about a request. */
  function LastAbout(log: seq<Event>, fp: Fingerprint): (last: Option<Event>)
    ensures last.Some? ==> About(last.value, fp)
  {
    if log == [] then None
    else if About(log[|log| - 1], fp) then Some(log[|log| - 1])
    else LastAbout(log[..|log| - 1], fp)
  }

  lemma {:induction false} TrackShowsLast(log: seq<Event>, fp: Fingerprint)
    requires TrackOf(log, fp) != Broken
    ensures match TrackOf(log, fp)
            case Idle => LastAbout(log, fp) == None
                         || (LastAbout(log, fp).value.Finish? && LastAbout(log, fp).value.ok)
            case Running(h, sent) => LastAbout(log, fp).Some? && !LastAbout(log, fp).value.Finish?
                                     && LastAbout(log, fp).value.h == h
            case Burnt(h) => LastAbout(log, fp) == Some(Finish(h, fp, false))
            case Broken => false
  {
    if log != [] {
      var front := log[..|log| - 1];
      if TrackOf(front, fp) == Broken {
        BrokenForGood(log, fp, |front|);
      }
      TrackShowsLast(front, fp);
    }
  }

  /** The answer to a request, read off the log of any interleaving: admitted exactly if the gateway is open, the
      deadline has not passed, and the request has not been admitted before or last finished well; the answer to a
      replay names the call whose failure, or whose work, is in the way. */
  lemma {:induction false} AnswerExactlyWhen(policy: Policy, steps: seq<Step>, fp: Fingerprint, expired: bool)
    ensures var w := Play(policy, steps);
            var answer, last := Decide(w.gate, fp, expired), LastAbout(w.log, fp);
            var open, idle := !expired && Closing !in w.log, last == None || (last.value.Finish? && last.value.ok);
            && (answer == Gone <==> !open)
            && (answer == Admitted <==> open && idle)
            && (answer.ReplayBlocked? || answer == AlreadyRunning <==> open && !idle)
            && (open && !idle && last.value.Finish? ==> answer.ReplayBlocked?)
            && (answer.ReplayBlocked? ==>
                  (last.value.Finish? || last.value.Admission? || last.value.Forward?)
                  && last.value.h in w.handlers && answer.first == w.handlers[last.value.h].call
                  && w.handlers[last.value.h].fp == fp)
  {
    var w := Play(policy, steps);
    Always(policy, steps);
    assert Consistent(w, fp);
    ClosedStaysQuiet(policy, steps);
    TrackShowsLast(w.log, fp);
  }

  // --- The retrieval budget. ---

  function Granted(log: seq<Event>): nat {
    if log == [] then 0
    else Granted(log[..|log| - 1]) + if log[|log| - 1].Grant? then log[|log| - 1].requested else 0
  }

  lemma GrantedSnoc(log: seq<Event>, e: Event)
    ensures Granted(log + [e]) == Granted(log) + if e.Grant? then e.requested else 0
  {
    assert (log + [e])[..|log|] == log;
  }

  lemma JudgeKeepsBudget(policy: Policy, used: nat, text: nat, calls: seq<Call>, allowRetrieval: bool)
    requires policy.budget > 0 && used <= policy.budget
    ensures var verdict := Judge(policy, used, text, calls, allowRetrieval);
            && (!verdict.Granted? ==> Charge(policy, verdict) == 0)
            && (verdict.Granted? ==> Charge(policy, verdict) == verdict.requested)
            && used + Charge(policy, verdict) <= policy.budget
  {
  }

  ghost predicate Balanced(policy: Policy, w: World) {
    w.used == Granted(w.log) <= policy.budget
  }

  lemma ValidatedBalances(policy: Policy, w: World, h: nat, verdict: Verdict, charge: nat)
    requires Balanced(policy, w) && h in w.handlers && w.used + charge <= policy.budget
    requires charge == if verdict.Granted? then verdict.requested else 0
    ensures Balanced(policy, Validated(w, h, verdict).(used := w.used + charge))
  {
    if verdict.Granted? {
      GrantedSnoc(w.log, Grant(h, verdict.requested));
    }
  }

  lemma StepKeepsBalance(policy: Policy, w: World, step: Step)
    requires policy.budget > 0 && Balanced(policy, w) && Enabled(w, step)
    ensures Balanced(policy, Apply(policy, w, step))
  {
    match step
    case Validate(h, text, calls) =>
      var verdict := Judge(policy, w.used, text, calls, !w.handlers[h].finishing);
      JudgeKeepsBudget(policy, w.used, text, calls, !w.handlers[h].finishing);
      ValidatedBalances(policy, w, h, verdict, Charge(policy, verdict));
    case Admit(h, _) => GrantedSnoc(w.log, Admission(h, w.handlers[h].fp));
    case Send(h) => GrantedSnoc(w.log, Forward(h, w.handlers[h].fp, w.handlers[h].tools));
    case Complete(h) => GrantedSnoc(w.log, Finish(h, w.handlers[h].fp, w.handlers[h].phase == Ended(true)));
    case Close => GrantedSnoc(w.log, Closing);
    case _ =>
  }

  /** What is used is exactly what was granted: refused responses consume nothing, and there is never an overrun. */
  lemma {:induction false} BudgetIsKept(policy: Policy, steps: seq<Step>)
    requires policy.budget > 0
    ensures Play(policy, steps).used == Granted(Play(policy, steps).log) <= policy.budget
  {
    if steps != [] {
      BudgetIsKept(policy, steps[..|steps| - 1]);
      var w, step := Play(policy, steps[..|steps| - 1]), steps[|steps| - 1];
      if Enabled(w, step) {
        StepKeepsBalance(policy, w, step);
      }
    }
  }

  lemma {:induction false} UsedGrows(policy: Policy, steps: seq<Step>, n: nat)
    requires n <= |steps|
    ensures Play(policy, steps[..n]).used <= Play(policy, steps).used
    ensures Play(policy, steps[..n]).log <= Play(policy, steps).log
  {
    if n == |steps| {
      assert steps[..n] == steps;
    } else {
      assert steps[..|steps| - 1][..n] == steps[..n];
      UsedGrows(policy, steps[..|steps| - 1], n);
    }
  }

  lemma {:induction false} GrantedFromOn(left: seq<Event>, log: seq<Event>, j: nat)
    requires left <= log && |left| <= j < |log| && log[j].Grant?
    ensures Granted(left) + log[j].requested <= Granted(log)
  {
    var front := log[..|log| - 1];
    if j < |front| {
      assert left <= front && front[j] == log[j];
      GrantedFromOn(left, front, j);
    } else {
      GrantedGrows(left, front);
    }
  }

  lemma {:induction false} GrantedGrows(left: seq<Event>, log: seq<Event>)
    requires left <= log
    ensures Granted(left) <= Granted(log)
  {
    if |left| == |log| {
      assert left == log;
    } else {
      GrantedGrows(left, log[..|log| - 1]);
    }
  }

  /** Once the budget is exhausted no retrieval call is released any more, whoever asked first. */
  lemma {:induction false} ExhaustedGrantsNothing(policy: Policy, steps: seq<Step>, n: nat, j: nat)
    requires policy.budget > 0 && n <= |steps|
    requires Play(policy, steps[..n]).used >= policy.budget
    requires |Play(policy, steps[..n]).log| <= j < |Play(policy, steps).log| && Play(policy, steps).log[j].Grant?
    ensures Play(policy, steps).log[j].requested == 0
  {
    BudgetIsKept(policy, steps);
    BudgetIsKept(policy, steps[..n]);
    UsedGrows(policy, steps, n);
    GrantedFromOn(Play(policy, steps[..n]).log, Play(policy, steps).log, j);
  }

  /** What a request offers the model: no tool in a diff-only review; once the granted calls reach the budget, or
      near the deadline, of the declared tools only that for the result; otherwise every declared tool. */
  lemma {:induction false} OffersExactly(
      policy: Policy, steps: seq<Step>, h: nat, nearDeadline: bool, declared: set<ToolName>)
    requires At(Play(policy, steps), h, Arrived)
    ensures var w, next := Play(policy, steps), Play(policy, steps + [Prepare(h, nearDeadline, declared)]);
            var finishing := !policy.diffOnly && policy.budget > 0
                             && (Granted(w.log) >= policy.budget || nearDeadline);
            && h in next.handlers && next.handlers[h].finishing == finishing
            && next.handlers[h].tools == (if policy.diffOnly then {}
                                          else if finishing then declared * {StructuredOutput}
                                          else declared)
  {
    assert (steps + [Prepare(h, nearDeadline, declared)])[..|steps|] == steps;
    if policy.budget > 0 {
      BudgetIsKept(policy, steps);
    }
  }

  /** Grants are logged for requests that were sent, and to a finishing one without a retrieving call. */
  ghost predicate GrantsFit(w: World) {
    forall j :: 0 <= j < |w.log| && w.log[j].Grant? ==>
      && w.log[j].h in w.handlers && w.handlers[w.log[j].h].sent
      && (w.handlers[w.log[j].h].finishing ==> w.log[j].requested == 0)
  }

  lemma SentStays(policy: Policy, w: World, step: Step, h: nat)
    requires Inv(w) && Enabled(w, step) && h in w.handlers && w.handlers[h].sent
    ensures h in Apply(policy, w, step).handlers && Apply(policy, w, step).handlers[h].sent
    ensures Apply(policy, w, step).handlers[h].finishing == w.handlers[h].finishing
  {
    assert PhaseFits(w.handlers[h]);
    StepOthersStay(policy, w, step);
  }

  lemma FinishingRetrievesNothing(policy: Policy, used: nat, text: nat, calls: seq<Call>)
    ensures var verdict := Judge(policy, used, text, calls, false); verdict.Granted? ==> verdict.requested == 0
  {
  }

  lemma StepKeepsGrants(policy: Policy, w: World, step: Step)
    requires Inv(w) && Enabled(w, step) && GrantsFit(w)
    ensures GrantsFit(Apply(policy, w, step))
  {
    var next := Apply(policy, w, step);
    forall j | 0 <= j < |next.log| && next.log[j].Grant?
      ensures next.log[j].h in next.handlers && next.handlers[next.log[j].h].sent
              && (next.handlers[next.log[j].h].finishing ==> next.log[j].requested == 0)
    {
      if j < |w.log| {
        assert next.log[j] == w.log[j];
        SentStays(policy, w, step, w.log[j].h);
      } else {
        assert step.Validate? && PhaseFits(w.handlers[step.h]);
        FinishingRetrievesNothing(policy, w.used, step.text, step.calls);
      }
    }
  }

  lemma {:induction false} GrantsAlwaysFit(policy: Policy, steps: seq<Step>)
    ensures GrantsFit(Play(policy, steps))
  {
    if steps != [] {
      Always(policy, steps[..|steps| - 1]);
      GrantsAlwaysFit(policy, steps[..|steps| - 1]);
      var w, step := Play(policy, steps[..|steps| - 1]), steps[|steps| - 1];
      if Enabled(w, step) {
        StepKeepsGrants(policy, w, step);
      }
    }
  }

  /** A request that was told to finish is never granted a retrieving call, even with budget left. */
  lemma {:induction false} FinishingIsGrantedNoRetrieval(policy: Policy, steps: seq<Step>, j: nat)
    requires j < |Play(policy, steps).log| && Play(policy, steps).log[j].Grant?
    ensures var w := Play(policy, steps);
            w.log[j].h in w.handlers && (w.handlers[w.log[j].h].finishing ==> w.log[j].requested == 0)
  {
    GrantsAlwaysFit(policy, steps);
  }

  /** Every request prepared from then on offers the model at most the result tool. */
  ghost predicate OffersLittle(policy: Policy, w: World, seen: map<nat, Handler>) {
    && (forall h :: h in w.handlers && (h !in seen || seen[h].phase == Arrived) && w.handlers[h].phase != Arrived ==>
          w.handlers[h].tools <= {StructuredOutput} && (policy.diffOnly || w.handlers[h].finishing))
    && (forall h :: h in seen ==> h in w.handlers)
  }

  lemma {:induction false} ExhaustedOffersOnlyTheResult(policy: Policy, steps: seq<Step>, n: nat)
    requires policy.budget > 0 && n <= |steps|
    requires Play(policy, steps[..n]).used >= policy.budget
    ensures OffersLittle(policy, Play(policy, steps), Play(policy, steps[..n]).handlers)
  {
    if n == |steps| {
      assert steps[..n] == steps;
    } else {
      var front := steps[..|steps| - 1];
      assert front[..n] == steps[..n];
      ExhaustedOffersOnlyTheResult(policy, front, n);
      UsedGrows(policy, front, n);
      var w, step := Play(policy, front), steps[|steps| - 1];
      if Enabled(w, step) {
        StepOthersStay(policy, w, step);
        OfferStep(policy, w, step, Play(policy, steps[..n]).handlers);
      }
    }
  }

  lemma OfferStep(policy: Policy, w: World, step: Step, seen: map<nat, Handler>)
    requires policy.budget > 0 && w.used >= policy.budget
    requires Enabled(w, step) && OffersLittle(policy, w, seen)
    ensures OffersLittle(policy, Apply(policy, w, step), seen)
  {
    var h := Actor(step);
    if h >= 0 {
      HandlerOffers(policy, w, step);
    }
    StepOthersStay(policy, w, step);
  }

  /** Preparing is the only step that sets what a handler offers. */
  lemma HandlerOffers(policy: Policy, w: World, step: Step)
    requires policy.budget > 0 && w.used >= policy.budget
    requires Enabled(w, step) && Actor(step) >= 0
    ensures var h := Actor(step);
            var next := Apply(policy, w, step).handlers;
            && h in next
            && (if step.Prepare? then next[h].tools <= {StructuredOutput} && (policy.diffOnly || next[h].finishing)
                else if step.Arrive? then next[h].phase == Arrived
                else
                  && h in w.handlers && next[h].tools == w.handlers[h].tools
                  && next[h].finishing == w.handlers[h].finishing && w.handlers[h].phase != Arrived)
  {
  }
}
