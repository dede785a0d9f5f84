/** The stream filter over every way of cutting a response into reads, and what comes out of it. */
module FilterStreams {
  import opened ByteStrings
  import opened SseFrames
  import opened ResponseValidation
  import opened FilterSpec

  // --- Chunks. ---

  /** After some calls of `feed`: the machine with everything put out, or what had been put out when
      a call raised. */
  datatype Fed = Broken(out: Bytes) | Fed(m: Machine)

  predicate Overfull(cfg: Config, m: Machine) {
    |m.pending| > PendingLimit(cfg, m.pending)
  }

  /** One call of `Filter.Feed`. */
  function FeedOne(cfg: Config, m: Machine, chunk: Bytes): Fed {
    var end := Scan(cfg, Machine(m.filtered.(out := []), []), m.pending + chunk);
    if end.filtered.failed || Overfull(cfg, end) then Broken(m.filtered.out)
    else Fed(Machine(end.filtered.(out := m.filtered.out + end.filtered.out), end.pending))
  }

  function FeedAll(cfg: Config, chunks: seq<Bytes>): Fed {
    if chunks == [] then Fed(Machine(IDLE, []))
    else
      match FeedAll(cfg, chunks[..|chunks| - 1])
      case Broken(out) => Broken(out)
      case Fed(m) => FeedOne(cfg, m, chunks[|chunks| - 1])
  }

  /** The filter on a whole response, without any chunks. */
  function Whole(cfg: Config, input: Bytes): Machine {
    Scan(cfg, Machine(IDLE, []), input)
  }

  /** What decides acceptance: the frames, and the length of the unfinished frame at each boundary. */
  ghost predicate Accepted(cfg: Config, chunks: seq<Bytes>) {
    && !Whole(cfg, Flatten(chunks)).filtered.failed
    && Fits(cfg, chunks)
  }

  function Behind(out: Bytes, f: Filtered): Filtered {
    f.(out := out + f.out)
  }

  lemma KeepBehind(out: Bytes, f: Filtered, limit: nat, frame: Bytes, r: Reading)
    ensures Keep(Behind(out, f), limit, frame, r) == Behind(out, Keep(f, limit, frame, r))
  {
    Associate(out, f.out, frame);
  }

  lemma TakeFrameBehind(cfg: Config, out: Bytes, f: Filtered, frame: Bytes)
    ensures TakeFrame(cfg, Behind(out, f), frame) == Behind(out, TakeFrame(cfg, f, frame))
  {
    match cfg.read(frame)
    case Nothing => KeepBehind(out, f, cfg.limit, frame, Blank(f, false));
    case EndMark => KeepBehind(out, f, cfg.limit, frame, Blank(f, true));
    case Data(value) =>
      if value.Object? {
        KeepBehind(out, f, cfg.limit, frame, ReadChoices(Blank(f, value.usage), cfg.limit, value.choices));
      }
  }

  lemma {:induction false} ScanBehind(cfg: Config, out: Bytes, m: Machine, s: Bytes)
    ensures Scan(cfg, Machine(Behind(out, m.filtered), m.pending), s)
         == Machine(Behind(out, Scan(cfg, m, s).filtered), Scan(cfg, m, s).pending)
    decreases |s|
  {
    if s != [] {
      TakeFrameBehind(cfg, out, m.filtered, m.pending + [s[0]]);
      ScanBehind(cfg, out, Push(cfg, m, s[0]), s[1..]);
    }
  }

  lemma {:induction false} PendingIsQuiet(cfg: Config, m: Machine, s: Bytes)
    requires Quiet([], m.pending)
    ensures Quiet([], Scan(cfg, m, s).pending)
    decreases |s|
  {
    if s != [] {
      var next := m.pending + [s[0]];
      if !EndsFrame(next, |next|) {
        assert [] + next == next && [] + m.pending == m.pending;
        forall k | 0 < k <= |next|
          ensures !EndsFrame(next, k)
        {
          if k < |next| {
            EndsFrameStable(m.pending, [s[0]], k);
          }
        }
      }
      PendingIsQuiet(cfg, Push(cfg, m, s[0]), s[1..]);
    }
  }

  lemma FeedContinues(cfg: Config, input: Bytes, chunk: Bytes)
    ensures var m := Whole(cfg, input);
            var end := Whole(cfg, input + chunk);
            !m.filtered.failed ==>
              FeedOne(cfg, m, chunk)
                == if end.filtered.failed || Overfull(cfg, end) then Broken(m.filtered.out) else Fed(end)
  {
    var m := Whole(cfg, input);
    var bare := Machine(m.filtered.(out := []), []);
    ScanConcat(cfg, Machine(IDLE, []), input, chunk);
    PendingIsQuiet(cfg, Machine(IDLE, []), input);
    ScanConcat(cfg, bare, m.pending, chunk);
    ScanQuiet(cfg, bare, m.pending);
    assert [] + m.pending == m.pending && m.filtered.out + [] == m.filtered.out;
    ScanBehind(cfg, m.filtered.out, Machine(bare.filtered, m.pending), chunk);
  }

  ghost predicate Fits(cfg: Config, chunks: seq<Bytes>) {
    forall k :: 0 <= k <= |chunks| ==> !Overfull(cfg, Whole(cfg, Flatten(chunks[..k])))
  }

  lemma FitsSnoc(cfg: Config, chunks: seq<Bytes>, chunk: Bytes)
    ensures Fits(cfg, chunks + [chunk]) <==> Fits(cfg, chunks) && !Overfull(cfg, Whole(cfg, Flatten(chunks + [chunk])))
  {
    var all := chunks + [chunk];
    assert all[..|all|] == all;
    assert forall k :: 0 <= k <= |chunks| ==> all[..k] == chunks[..k];
    if Fits(cfg, all) {
      forall k | 0 <= k <= |chunks|
        ensures !Overfull(cfg, Whole(cfg, Flatten(chunks[..k])))
      {
        assert all[..k] == chunks[..k];
      }
    }
  }

  lemma AcceptedSnoc(cfg: Config, chunks: seq<Bytes>, chunk: Bytes)
    ensures var end := Whole(cfg, Flatten(chunks + [chunk]));
            Accepted(cfg, chunks + [chunk])
            <==> Accepted(cfg, chunks) && !end.filtered.failed && !Overfull(cfg, end)
  {
    FitsSnoc(cfg, chunks, chunk);
    FlattenSnoc(chunks, chunk);
    ScanConcat(cfg, Machine(IDLE, []), Flatten(chunks), chunk);
    if Whole(cfg, Flatten(chunks)).filtered.failed {
      ScanStaysFailed(cfg, Whole(cfg, Flatten(chunks)), chunk);
    }
  }

  /** What passes, what is held and what has been accumulated depend on the bytes alone; when a call
      raises, what had passed is what passes of some earlier accepted prefix. */
  lemma {:induction false} ChunksDoNotMatter(cfg: Config, chunks: seq<Bytes>)
    ensures FeedAll(cfg, chunks).Fed? <==> Accepted(cfg, chunks)
    ensures FeedAll(cfg, chunks).Fed? ==> FeedAll(cfg, chunks).m == Whole(cfg, Flatten(chunks))
    ensures FeedAll(cfg, chunks).Broken? ==>
              exists k :: 0 <= k < |chunks| && Accepted(cfg, chunks[..k])
                          && FeedAll(cfg, chunks).out == Whole(cfg, Flatten(chunks[..k])).filtered.out
  {
    if chunks != [] {
      var front, last := chunks[..|chunks| - 1], chunks[|chunks| - 1];
      assert front + [last] == chunks;
      ChunksDoNotMatter(cfg, front);
      AcceptedSnoc(cfg, front, last);
      FlattenSnoc(front, last);
      FeedContinues(cfg, Flatten(front), last);
      if FeedAll(cfg, front).Broken? {
        var k :| 0 <= k < |front| && Accepted(cfg, front[..k])
                 && FeedAll(cfg, front).out == Whole(cfg, Flatten(front[..k])).filtered.out;
        assert chunks[..k] == front[..k];
      } else {
        assert chunks[..|front|] == front;
      }
    }
  }

  /** Reading more at a time never turns success into failure, and gives identical bytes out. */
  lemma {:induction false} MergeIsAccepted(cfg: Config, chunks: seq<Bytes>, i: nat)
    requires i + 1 < |chunks| && FeedAll(cfg, chunks).Fed?
    ensures FeedAll(cfg, Merge(chunks, i)) == FeedAll(cfg, chunks)
  {
    var merged := Merge(chunks, i);
    ChunksDoNotMatter(cfg, chunks);
    ChunksDoNotMatter(cfg, merged);
    MergeFlatten(chunks, i);
    forall k | 0 <= k <= |merged|
      ensures !Overfull(cfg, Whole(cfg, Flatten(merged[..k])))
    {
      MergePrefix(chunks, i, k);
    }
  }

  // --- Frames. ---

  /** The frames of a response and the bytes behind the last one, with no filter involved. */
  datatype Pieces = Pieces(frames: seq<Bytes>, tail: Bytes)

  function Cut(s: Bytes): Pieces {
    if s == [] then Pieces([], [])
    else
      var front := Cut(s[..|s| - 1]);
      var tail := front.tail + [s[|s| - 1]];
      if EndsFrame(tail, |tail|) then Pieces(front.frames + [tail], []) else Pieces(front.frames, tail)
  }

  lemma CutSnoc(s: Bytes, b: byte)
    ensures var front := Cut(s);
            var tail := front.tail + [b];
            Cut(s + [b])
              == if EndsFrame(tail, |tail|) then Pieces(front.frames + [tail], []) else Pieces(front.frames, tail)
  {
    assert (s + [b])[..|s|] == s;
  }

  /** The frames are the response in order, byte for byte. */
  lemma {:induction false} FramesAreTheInput(s: Bytes)
    ensures Flatten(Cut(s).frames) + Cut(s).tail == s
  {
    if s != [] {
      var front, b := s[..|s| - 1], s[|s| - 1];
      FramesAreTheInput(front);
      var tail := Cut(front).tail + [b];
      FlattenSnoc(Cut(front).frames, tail);
      Associate(Flatten(Cut(front).frames), Cut(front).tail, [b]);
      assert front + [b] == s;
      assert Flatten(Cut(front).frames + [tail]) + [] == Flatten(Cut(front).frames + [tail]);
    }
  }

  lemma TakeFramesSnoc(cfg: Config, f: Filtered, frames: seq<Bytes>, frame: Bytes)
    ensures TakeFrames(cfg, f, frames + [frame]) == TakeFrame(cfg, TakeFrames(cfg, f, frames), frame)
  {
    assert (frames + [frame])[..|frames|] == frames;
  }

  lemma {:induction false} WholeIsFrames(cfg: Config, s: Bytes)
    ensures Whole(cfg, s) == Machine(TakeFrames(cfg, IDLE, Cut(s).frames), Cut(s).tail)
  {
    if s != [] {
      var front, b := s[..|s| - 1], s[|s| - 1];
      WholeIsFrames(cfg, front);
      assert front + [b] == s;
      ScanConcat(cfg, Machine(IDLE, []), front, [b]);
      assert Scan(cfg, Whole(cfg, front), [b]) == Push(cfg, Whole(cfg, front), b);
      TakeFramesSnoc(cfg, IDLE, Cut(front).frames, Cut(front).tail + [b]);
    }
  }

  // --- Which frames pass, which are held, which are dropped. ---

  predicate HasObject(cfg: Config, frame: Bytes) {
    cfg.read(frame).Data? && cfg.read(frame).value.Object?
  }

  /** A private error entry of the broker. */
  predicate IsPrivate(cfg: Config, frame: Bytes) {
    HasObject(cfg, frame) && cfg.read(frame).value.private != NoError
  }

  predicate StartsTools(choice: Choice) {
    choice.Choice? && (choice.tools != [] || choice.finishesTools)
  }

  /** A frame with a piece of a tool call, or one that finishes with tool_calls. */
  predicate IsTool(cfg: Config, frame: Bytes) {
    && HasObject(cfg, frame) && cfg.read(frame).value.private == NoError
    && exists i :: 0 <= i < |cfg.read(frame).value.choices| && StartsTools(cfg.read(frame).value.choices[i])
  }

  /** No end mark, no usage and no choice. */
  predicate IsHeartbeat(cfg: Config, frame: Bytes) {
    match cfg.read(frame)
    case Nothing => true
    case EndMark => false
    case Data(value) => value.Object? && !value.usage && value.choices == []
  }

  function FirstTool(cfg: Config, frames: seq<Bytes>): (k: nat)
    ensures k <= |frames|
  {
    if frames == [] then 0
    else
      var k := FirstTool(cfg, frames[..|frames| - 1]);
      if k < |frames| - 1 || IsTool(cfg, frames[k]) then k else k + 1
  }

  function Public(cfg: Config, frames: seq<Bytes>): seq<Bytes> {
    if frames == [] then []
    else
      var last := frames[|frames| - 1];
      Public(cfg, frames[..|frames| - 1]) + if IsPrivate(cfg, last) then [] else [last]
  }

  function Weighty(cfg: Config, frames: seq<Bytes>): seq<Bytes> {
    if frames == [] then []
    else
      var last := frames[|frames| - 1];
      Weighty(cfg, frames[..|frames| - 1]) + if IsPrivate(cfg, last) || IsHeartbeat(cfg, last) then [] else [last]
  }

  lemma {:induction false} ToolsFlag(r: Reading, limit: nat, tools: seq<Tool>)
    requires !ReadTools(r, limit, tools).failed
    ensures !r.failed
    ensures var after := ReadTools(r, limit, tools);
            (after.tool <==> r.tool || tools != []) && after.meaningful == r.meaningful
  {
    if tools != [] {
      ToolsFlag(r, limit, tools[..|tools| - 1]);
    }
  }

  lemma {:induction false} ChoicesFlags(r: Reading, limit: nat, choices: seq<Choice>)
    requires !ReadChoices(r, limit, choices).failed
    ensures !r.failed
    ensures var after := ReadChoices(r, limit, choices);
            && (after.meaningful <==> r.meaningful || choices != [])
            && (after.tool <==> r.tool || exists i :: 0 <= i < |choices| && StartsTools(choices[i]))
  {
    if choices != [] {
      var front, last := choices[..|choices| - 1], choices[|choices| - 1];
      ChoicesFlags(r, limit, front);
      var before := ReadChoices(r, limit, front);
      ToolsFlag(Account(before.(meaningful := true), limit, last.textBytes), limit, last.tools);
      assert forall i :: 0 <= i < |front| ==> front[i] == choices[i];
      if i :| 0 <= i < |front| && StartsTools(front[i]) {
        assert StartsTools(choices[i]);
      }
    }
  }

  /** What one frame does to the outside, in terms of what the frame is. */
  lemma FrameEffect(cfg: Config, f: Filtered, frame: Bytes)
    requires !TakeFrame(cfg, f, frame).failed
    ensures var g := TakeFrame(cfg, f, frame);
            && !f.failed
            && g.toolSeen == (f.toolSeen || IsTool(cfg, frame))
            && g.out == (if g.toolSeen || IsPrivate(cfg, frame) then f.out else f.out + frame)
            && g.held == (if g.toolSeen && !IsPrivate(cfg, frame) && !IsHeartbeat(cfg, frame) then f.held + frame
                          else f.held)
  {
    if HasObject(cfg, frame) && !IsPrivate(cfg, frame) {
      var value := cfg.read(frame).value;
      ChoicesFlags(Blank(f, value.usage), cfg.limit, value.choices);
    }
  }

  ghost predicate Sorted(cfg: Config, frames: seq<Bytes>, f: Filtered) {
    var k := FirstTool(cfg, frames);
    && f.out == Flatten(Public(cfg, frames[..k]))
    && f.held == Flatten(Weighty(cfg, frames[k..]))
    && (f.toolSeen <==> k < |frames|)
  }

  lemma FirstToolSnoc(cfg: Config, frames: seq<Bytes>, frame: Bytes)
    ensures var k := FirstTool(cfg, frames);
            FirstTool(cfg, frames + [frame]) == if k < |frames| || IsTool(cfg, frame) then k else k + 1
  {
    assert (frames + [frame])[..|frames|] == frames;
  }

  lemma PublicSnoc(cfg: Config, frames: seq<Bytes>, frame: Bytes)
    ensures Flatten(Public(cfg, frames + [frame]))
         == if IsPrivate(cfg, frame) then Flatten(Public(cfg, frames)) else Flatten(Public(cfg, frames)) + frame
  {
    assert (frames + [frame])[..|frames|] == frames;
    assert Public(cfg, frames) + [] == Public(cfg, frames);
    FlattenSnoc(Public(cfg, frames), frame);
  }

  lemma WeightySnoc(cfg: Config, frames: seq<Bytes>, frame: Bytes)
    ensures Flatten(Weighty(cfg, frames + [frame]))
         == if IsPrivate(cfg, frame) || IsHeartbeat(cfg, frame) then Flatten(Weighty(cfg, frames))
            else Flatten(Weighty(cfg, frames)) + frame
  {
    assert (frames + [frame])[..|frames|] == frames;
    assert Weighty(cfg, frames) + [] == Weighty(cfg, frames);
    FlattenSnoc(Weighty(cfg, frames), frame);
  }

  lemma SplitSnoc(frames: seq<Bytes>, frame: Bytes, k: nat)
    requires k <= |frames|
    ensures (frames + [frame])[..k] == frames[..k] && (frames + [frame])[k..] == frames[k..] + [frame]
  {
  }

  lemma SortedSnoc(cfg: Config, frames: seq<Bytes>, frame: Bytes, f: Filtered)
    requires Sorted(cfg, frames, f) && !TakeFrame(cfg, f, frame).failed
    ensures Sorted(cfg, frames + [frame], TakeFrame(cfg, f, frame))
  {
    var k := FirstTool(cfg, frames);
    FirstToolSnoc(cfg, frames, frame);
    FrameEffect(cfg, f, frame);
    SplitSnoc(frames, frame, k);
    if k < |frames| || IsTool(cfg, frame) {
      WeightySnoc(cfg, frames[k..], frame);
    } else {
      assert frames[..k] == frames && frames[k..] == [];
      assert (frames + [frame])[..k + 1] == frames + [frame] && (frames + [frame])[k + 1..] == [];
      PublicSnoc(cfg, frames, frame);
    }
  }

  /** Feed passes exactly the public frames before the first tool frame; from there on exactly the
      frames that are neither private nor heartbeats are held. Nothing is reordered or altered. */
  lemma {:induction false} FramesAreSorted(cfg: Config, frames: seq<Bytes>)
    requires !TakeFrames(cfg, IDLE, frames).failed
    ensures Sorted(cfg, frames, TakeFrames(cfg, IDLE, frames))
  {
    if frames != [] {
      var front, last := frames[..|frames| - 1], frames[|frames| - 1];
      assert front + [last] == frames;
      FramesAreSorted(cfg, front);
      SortedSnoc(cfg, front, last, TakeFrames(cfg, IDLE, front));
    }
  }

  lemma {:induction false} FirstToolIsFirst(cfg: Config, frames: seq<Bytes>, i: nat)
    ensures i < FirstTool(cfg, frames) ==> !IsTool(cfg, frames[i])
    ensures i == FirstTool(cfg, frames) < |frames| ==> IsTool(cfg, frames[i])
  {
    if frames != [] {
      var front := frames[..|frames| - 1];
      FirstToolIsFirst(cfg, front, i);
      assert i < |front| ==> front[i] == frames[i];
    }
  }

  /** Bytes out of a whole response: by `feed` the public frames before the first tool frame, and, if
      `finish` succeeds, the substantial frames from there on. */
  lemma {:induction false} BytesOut(cfg: Config, chunks: seq<Bytes>)
    requires FeedAll(cfg, chunks).Fed?
    ensures var frames := Cut(Flatten(chunks)).frames;
            var k := FirstTool(cfg, frames);
            var f := FeedAll(cfg, chunks).m.filtered;
            f.out == Flatten(Public(cfg, frames[..k])) && f.held == Flatten(Weighty(cfg, frames[k..]))
  {
    ChunksDoNotMatter(cfg, chunks);
    WholeIsFrames(cfg, Flatten(chunks));
    FramesAreSorted(cfg, Cut(Flatten(chunks)).frames);
  }

  lemma {:induction false} CutPrefix(s: Bytes, t: Bytes)
    ensures Cut(s).frames <= Cut(s + t).frames
    decreases |t|
  {
    if t == [] {
      assert s + t == s;
    } else {
      var front, b := t[..|t| - 1], t[|t| - 1];
      CutPrefix(s, front);
      assert s + t == (s + front) + [b];
      CutSnoc(s + front, b);
    }
  }

  /** Frames before the first tool frame stay so when more arrive. */
  lemma {:induction false} FirstToolPrefix(cfg: Config, early: seq<Bytes>, frames: seq<Bytes>)
    requires early <= frames
    ensures FirstTool(cfg, early) <= FirstTool(cfg, frames)
    ensures early[..FirstTool(cfg, early)] <= frames[..FirstTool(cfg, frames)]
    decreases |frames|
  {
    if |early| == |frames| {
      assert early == frames;
    } else {
      var front := frames[..|frames| - 1];
      FirstToolPrefix(cfg, early, front);
      assert front + [frames[|frames| - 1]] == frames;
      FirstToolSnoc(cfg, front, frames[|frames| - 1]);
    }
  }

  lemma {:induction false} PublicPrefix(cfg: Config, early: seq<Bytes>, frames: seq<Bytes>)
    requires early <= frames
    ensures Flatten(Public(cfg, early)) <= Flatten(Public(cfg, frames))
    decreases |frames|
  {
    if |early| == |frames| {
      assert early == frames;
    } else {
      var front := frames[..|frames| - 1];
      PublicPrefix(cfg, early, front);
      assert front + [frames[|frames| - 1]] == frames;
      PublicSnoc(cfg, front, frames[|frames| - 1]);
    }
  }

  lemma {:induction false} FlattenTake(chunks: seq<Bytes>, k: nat)
    requires k <= |chunks|
    ensures Flatten(chunks) == Flatten(chunks[..k]) + Flatten(chunks[k..])
  {
    FlattenConcat(chunks[..k], chunks[k..]);
    assert chunks[..k] + chunks[k..] == chunks;
  }

  /** What passes of a whole response: the public frames before its first tool frame. */
  function Passing(cfg: Config, input: Bytes): Bytes {
    var frames := Cut(input).frames;
    Flatten(Public(cfg, frames[..FirstTool(cfg, frames)]))
  }

  lemma PassingPrefix(cfg: Config, early: Bytes, late: Bytes)
    ensures Passing(cfg, early) <= Passing(cfg, early + late)
  {
    var some, all := Cut(early).frames, Cut(early + late).frames;
    CutPrefix(early, late);
    FirstToolPrefix(cfg, some, all);
    PublicPrefix(cfg, some[..FirstTool(cfg, some)], all[..FirstTool(cfg, all)]);
  }

  function FedOut(fed: Fed): Bytes {
    match fed
    case Broken(out) => out
    case Fed(m) => m.filtered.out
  }

  /** Whatever happens later, what `feed` has given out never reaches into the first tool frame of the
      response: not on an accepted stream, and not when a call raises. */
  lemma {:induction false} NothingPassesEarly(cfg: Config, chunks: seq<Bytes>)
    ensures FedOut(FeedAll(cfg, chunks)) <= Passing(cfg, Flatten(chunks))
  {
    ChunksDoNotMatter(cfg, chunks);
    if FeedAll(cfg, chunks).Broken? {
      var k :| 0 <= k < |chunks| && Accepted(cfg, chunks[..k])
        && FeedAll(cfg, chunks).out == Whole(cfg, Flatten(chunks[..k])).filtered.out;
      ChunksDoNotMatter(cfg, chunks[..k]);
      BytesOut(cfg, chunks[..k]);
      FlattenTake(chunks, k);
      PassingPrefix(cfg, Flatten(chunks[..k]), Flatten(chunks[k..]));
    } else {
      BytesOut(cfg, chunks);
    }
  }

  // --- A whole response, fed and finished. ---

  /** All bytes that come out: those of every `feed`, and those of `finish` unless it raises. */
  function Output(cfg: Config, policy: Policy, used: nat, allowRetrieval: bool, chunks: seq<Bytes>): Bytes {
    match FeedAll(cfg, chunks)
    case Broken(out) => out
    case Fed(m) =>
      match EndOf(policy, used, m, allowRetrieval)
      case Raised(_) => m.filtered.out
      case Released(tail) => m.filtered.out + tail
  }

  lemma {:induction false} PrivateIsRemembered(cfg: Config, frames: seq<Bytes>)
    requires !TakeFrames(cfg, IDLE, frames).failed
    ensures TakeFrames(cfg, IDLE, frames).private == NoError <==>
              forall i :: 0 <= i < |frames| ==> !IsPrivate(cfg, frames[i])
  {
    if frames != [] {
      var front, last := frames[..|frames| - 1], frames[|frames| - 1];
      PrivateIsRemembered(cfg, front);
      PrivateOfFrame(cfg, TakeFrames(cfg, IDLE, front), last);
      assert forall i :: 0 <= i < |front| ==> front[i] == frames[i];
    }
  }

  lemma PrivateOfFrame(cfg: Config, f: Filtered, frame: Bytes)
    requires !TakeFrame(cfg, f, frame).failed
    ensures !f.failed
    ensures TakeFrame(cfg, f, frame).private == NoError <==> f.private == NoError && !IsPrivate(cfg, frame)
  {
  }

  /** The response was accepted to its end, is complete, holds no private error, and its tool calls, if there
      are any, are granted. */
  ghost predicate Cleared(cfg: Config, policy: Policy, used: nat, allowRetrieval: bool, chunks: seq<Bytes>) {
    var pieces := Cut(Flatten(chunks));
    && FeedAll(cfg, chunks).Fed?
    && pieces.tail == []
    && (forall i :: 0 <= i < |pieces.frames| ==> !IsPrivate(cfg, pieces.frames[i]))
    && (FirstTool(cfg, pieces.frames) < |pieces.frames| ==>
          Judge(policy, used, 0, FeedAll(cfg, chunks).m.filtered.calls, allowRetrieval).Granted?)
  }

  lemma ClearedIsReleased(cfg: Config, policy: Policy, used: nat, allowRetrieval: bool, chunks: seq<Bytes>)
    requires FeedAll(cfg, chunks).Fed?
    ensures Cleared(cfg, policy, used, allowRetrieval, chunks)
       <==> EndOf(policy, used, FeedAll(cfg, chunks).m, allowRetrieval).Released?
  {
    var input := Flatten(chunks);
    ChunksDoNotMatter(cfg, chunks);
    WholeIsFrames(cfg, input);
    FramesAreSorted(cfg, Cut(input).frames);
    PrivateIsRemembered(cfg, Cut(input).frames);
  }

  /** From the first tool frame on a byte comes out exactly if the whole response is cleared; then the output
      is every frame of the response in order but private ones and, from the first tool frame on, heartbeats.
      Otherwise nothing does, and what came out is a beginning of what stands before that frame. */
  lemma {:induction false} ToolFramesComeOutExactlyWhen(
      cfg: Config, policy: Policy, used: nat, allowRetrieval: bool, chunks: seq<Bytes>)
    ensures var input, out := Flatten(chunks), Output(cfg, policy, used, allowRetrieval, chunks);
            var frames := Cut(input).frames;
            if Cleared(cfg, policy, used, allowRetrieval, chunks) then
              out == Passing(cfg, input) + Flatten(Weighty(cfg, frames[FirstTool(cfg, frames)..]))
            else out <= Passing(cfg, input)
  {
    NothingPassesEarly(cfg, chunks);
    if FeedAll(cfg, chunks).Fed? {
      BytesOut(cfg, chunks);
      ClearedIsReleased(cfg, policy, used, allowRetrieval, chunks);
    }
  }

  // --- Accounting. ---

  lemma {:induction false} ToolsAccounted(r: Reading, limit: nat, tools: seq<Tool>)
    requires CallBytes(r.calls) <= r.bytes && !ReadTools(r, limit, tools).failed
    ensures CallBytes(ReadTools(r, limit, tools).calls) <= ReadTools(r, limit, tools).bytes
    ensures tools != [] ==> ReadTools(r, limit, tools).bytes <= limit
  {
    if tools != [] {
      var front, last := tools[..|tools| - 1], tools[|tools| - 1];
      ToolsAccounted(r, limit, front);
      AddToolBytes(ReadTools(r, limit, front).calls, last.key, last.name, last.arguments);
    }
  }

  lemma {:induction false} ChoicesAccounted(r: Reading, limit: nat, choices: seq<Choice>)
    requires CallBytes(r.calls) <= r.bytes <= limit && !ReadChoices(r, limit, choices).failed
    ensures CallBytes(ReadChoices(r, limit, choices).calls) <= ReadChoices(r, limit, choices).bytes <= limit
  {
    if choices != [] {
      var front, last := choices[..|choices| - 1], choices[|choices| - 1];
      ChoicesAccounted(r, limit, front);
      var counted := Account(ReadChoices(r, limit, front).(meaningful := true), limit, last.textBytes);
      ToolsFlag(counted, limit, last.tools);
      ToolsAccounted(counted, limit, last.tools);
    }
  }

  lemma KeepAccounted(f: Filtered, limit: nat, frame: Bytes, r: Reading)
    requires CallBytes(r.calls) <= r.bytes <= limit || r.failed
    ensures var kept := Keep(f, limit, frame, r);
            kept.failed || CallBytes(kept.calls) <= kept.bytes <= limit
  {
  }

  lemma FrameAccounted(cfg: Config, f: Filtered, frame: Bytes)
    requires CallBytes(f.calls) <= f.bytes <= cfg.limit && !TakeFrame(cfg, f, frame).failed
    ensures CallBytes(TakeFrame(cfg, f, frame).calls) <= TakeFrame(cfg, f, frame).bytes <= cfg.limit
  {
    match cfg.read(frame)
    case Nothing => KeepAccounted(f, cfg.limit, frame, Blank(f, false));
    case EndMark => KeepAccounted(f, cfg.limit, frame, Blank(f, true));
    case Data(value) =>
      if value.Object? && value.private == NoError && value.listed {
        var r := ReadChoices(Blank(f, value.usage), cfg.limit, value.choices);
        if !r.failed {
          ChoicesAccounted(Blank(f, value.usage), cfg.limit, value.choices);
        }
        KeepAccounted(f, cfg.limit, frame, r);
      }
  }

  lemma {:induction false} FramesAccounted(cfg: Config, frames: seq<Bytes>)
    requires !TakeFrames(cfg, IDLE, frames).failed
    ensures var f := TakeFrames(cfg, IDLE, frames); CallBytes(f.calls) <= f.bytes <= cfg.limit
  {
    if frames != [] {
      var front := frames[..|frames| - 1];
      FramesAccounted(cfg, front);
      FrameAccounted(cfg, TakeFrames(cfg, IDLE, front), frames[|frames| - 1]);
    }
  }

  /** The calls of an accepted response fit the limit that was kept while they accumulated, so the
      size check inside the final validation cannot fire. */
  lemma {:induction false} SizeCheckCannotFire(
      cfg: Config, chunks: seq<Bytes>, policy: Policy, used: nat, allowRetrieval: bool)
    requires FeedAll(cfg, chunks).Fed? && policy.limit == cfg.limit
    ensures Judge(policy, used, 0, FeedAll(cfg, chunks).m.filtered.calls, allowRetrieval)
         != ResponseValidation.Refused(TooLarge)
  {
    ChunksDoNotMatter(cfg, chunks);
    WholeIsFrames(cfg, Flatten(chunks));
    FramesAccounted(cfg, Cut(Flatten(chunks)).frames);
  }
}
