/** Exactly which responses the stream filter takes, and what the calls of a released one look like. */
module FilterLimits {
  import opened ByteStrings
  import opened ResponseValidation
  import opened FilterSpec
  import opened FilterStreams
  import opened BatchParser
  import opened CallAccumulation

  // --- What a frame counts. ---

  function ToolSizes(tools: seq<Tool>): nat {
    if tools == [] then 0
    else
      var last := tools[|tools| - 1];
      ToolSizes(tools[..|tools| - 1]) + if last.Tool? then |last.name| + |last.arguments| else 0
  }

  function ChoiceSizes(choices: seq<Choice>): nat {
    if choices == [] then 0
    else
      var last := choices[|choices| - 1];
      ChoiceSizes(choices[..|choices| - 1]) + if last.Choice? then last.textBytes + ToolSizes(last.tools) else 0
  }

  /** Text and tool fragments of a frame; private errors do not count. */
  function FrameSize(cfg: Config, frame: Bytes): nat {
    if HasObject(cfg, frame) && !IsPrivate(cfg, frame) then ChoiceSizes(cfg.read(frame).value.choices) else 0
  }

  function FrameSizes(cfg: Config, frames: seq<Bytes>): nat {
    if frames == [] then 0 else FrameSizes(cfg, frames[..|frames| - 1]) + FrameSize(cfg, frames[|frames| - 1])
  }

  /** Data that is no JSON object, a private entry of the wrong shape, or choices of the wrong shape. */
  predicate BadFrame(cfg: Config, frame: Bytes) {
    var content := cfg.read(frame);
    && content.Data?
    && (!content.value.Object? || content.value.private == BadError
        || (content.value.private == NoError && (!content.value.listed || BadChoiceIn(content.value.choices))))
  }

  // --- One frame. ---

  predicate Calm(r: Reading, limit: nat) {
    !r.failed && r.bytes <= limit
  }

  /** Why a reading failed, if it did. */
  predicate Says(after: Reading, bad: bool, over: bool) {
    && (after.failed <==> bad || over)
    && (after.failed ==> if after.error == Protocol then bad else after.error == Limit && over)
  }

  lemma {:induction false} ToolsCount(r: Reading, limit: nat, tools: seq<Tool>)
    requires Calm(r, limit)
    ensures Says(ReadTools(r, limit, tools), BadTool in tools, r.bytes + ToolSizes(tools) > limit)
    ensures !ReadTools(r, limit, tools).failed ==> ReadTools(r, limit, tools).bytes == r.bytes + ToolSizes(tools)
    decreases |tools|
  {
    if tools != [] {
      var front, last := tools[..|tools| - 1], tools[|tools| - 1];
      ToolsCount(r, limit, front);
      assert tools == front + [last];
    }
  }

  lemma {:induction false} ChoicesCount(r: Reading, limit: nat, choices: seq<Choice>)
    requires Calm(r, limit)
    ensures Says(ReadChoices(r, limit, choices), BadChoiceIn(choices), r.bytes + ChoiceSizes(choices) > limit)
    ensures !ReadChoices(r, limit, choices).failed ==>
              ReadChoices(r, limit, choices).bytes == r.bytes + ChoiceSizes(choices)
    decreases |choices|
  {
    if choices != [] {
      var front, last := choices[..|choices| - 1], choices[|choices| - 1];
      ChoicesCount(r, limit, front);
      BadChoiceSnoc(front, last);
      assert choices == front + [last];
      var before := ReadChoices(r, limit, front);
      if !before.failed && last.Choice? {
        ChoiceCounts(before, limit, last);
      }
    }
  }

  lemma ChoiceCounts(r: Reading, limit: nat, choice: Choice)
    requires Calm(r, limit) && choice.Choice?
    ensures var after := ReadChoice(r, limit, choice);
            && Says(after, BadTool in choice.tools, r.bytes + choice.textBytes + ToolSizes(choice.tools) > limit)
            && (!after.failed ==> after.bytes == r.bytes + choice.textBytes + ToolSizes(choice.tools))
  {
    var counted := Account(r.(meaningful := true), limit, choice.textBytes);
    if counted.failed {
      ReadToolsOfFailed(counted, limit, choice.tools);
    } else {
      ToolsCount(counted, limit, choice.tools);
    }
  }

  /** The frame is kept behind the first tool frame. */
  predicate Holds(cfg: Config, seen: bool, frame: Bytes) {
    (seen || IsTool(cfg, frame)) && !IsPrivate(cfg, frame) && !IsHeartbeat(cfg, frame)
  }

  lemma KeptCounts(f: Filtered, limit: nat, frame: Bytes, r: Reading, holds: bool)
    requires !f.failed && |f.held| <= limit + 65536 && !r.failed
    requires holds == ((f.toolSeen || r.tool) && r.meaningful)
    ensures var g := Keep(f, limit, frame, r);
            && g.bytes == r.bytes && (g.failed <==> holds && |f.held| + |frame| > limit + 65536)
            && (g.failed ==> g.error == Limit)
  {
  }

  /** When a frame is refused, and for which reason. */
  lemma FrameFailsExactlyWhen(cfg: Config, f: Filtered, frame: Bytes)
    requires !f.failed && f.bytes <= cfg.limit && |f.held| <= cfg.limit + 65536
    ensures var g := TakeFrame(cfg, f, frame);
            var over := f.bytes + FrameSize(cfg, frame) > cfg.limit;
            var full := Holds(cfg, f.toolSeen, frame) && |f.held| + |frame| > cfg.limit + 65536;
            && (g.failed <==> BadFrame(cfg, frame) || over || full)
            && (g.failed ==> if g.error == Protocol then BadFrame(cfg, frame) else g.error == Limit && (over || full))
            && (!g.failed ==> g.bytes == f.bytes + FrameSize(cfg, frame))
  {
    match cfg.read(frame)
    case Nothing => KeptCounts(f, cfg.limit, frame, Blank(f, false), false);
    case EndMark => KeptCounts(f, cfg.limit, frame, Blank(f, true), f.toolSeen);
    case Data(value) =>
      if value.Object? && value.private == NoError && value.listed {
        var r := ReadChoices(Blank(f, value.usage), cfg.limit, value.choices);
        ChoicesCount(Blank(f, value.usage), cfg.limit, value.choices);
        if !r.failed {
          ChoicesFlags(Blank(f, value.usage), cfg.limit, value.choices);
          KeptCounts(f, cfg.limit, frame, r, Holds(cfg, f.toolSeen, frame));
        }
      }
  }

  // --- Whole responses. ---

  /** What is held of a response: the substantial frames from its first tool frame on. */
  function Held(cfg: Config, frames: seq<Bytes>): Bytes {
    Flatten(Weighty(cfg, frames[FirstTool(cfg, frames)..]))
  }

  lemma HeldBehindTool(cfg: Config, frames: seq<Bytes>, frame: Bytes)
    requires FirstTool(cfg, frames) < |frames| || IsTool(cfg, frame)
    ensures |Held(cfg, frames + [frame])|
         == |Held(cfg, frames)| + if IsPrivate(cfg, frame) || IsHeartbeat(cfg, frame) then 0 else |frame|
  {
    var k := FirstTool(cfg, frames);
    FirstToolSnoc(cfg, frames, frame);
    SplitSnoc(frames, frame, k);
    WeightySnoc(cfg, frames[k..], frame);
  }

  lemma HeldBeforeTool(cfg: Config, frames: seq<Bytes>, frame: Bytes)
    requires FirstTool(cfg, frames) == |frames| && !IsTool(cfg, frame)
    ensures Held(cfg, frames + [frame]) == Held(cfg, frames) == []
  {
    FirstToolSnoc(cfg, frames, frame);
    assert frames[|frames|..] == [] && (frames + [frame])[|frames| + 1..] == [];
  }

  lemma HeldSnoc(cfg: Config, frames: seq<Bytes>, frame: Bytes)
    ensures |Held(cfg, frames + [frame])| == |Held(cfg, frames)|
              + if Holds(cfg, FirstTool(cfg, frames) < |frames|, frame) then |frame| else 0
  {
    if FirstTool(cfg, frames) < |frames| || IsTool(cfg, frame) {
      HeldBehindTool(cfg, frames, frame);
    } else {
      HeldBeforeTool(cfg, frames, frame);
    }
  }

  /** Text and fragments of some frames, or what is held of them, are too much. */
  predicate Over(cfg: Config, early: seq<Bytes>) {
    FrameSizes(cfg, early) > cfg.limit || |Held(cfg, early)| > cfg.limit + 65536
  }

  /** The response cannot be taken past its frame k. */
  predicate Refuses(cfg: Config, frames: seq<Bytes>, k: nat)
    requires k < |frames|
  {
    BadFrame(cfg, frames[k]) || Over(cfg, frames[..k + 1])
  }

  ghost predicate Refused(cfg: Config, frames: seq<Bytes>) {
    exists k :: 0 <= k < |frames| && Refuses(cfg, frames, k)
  }

  lemma RefusedSnoc(cfg: Config, frames: seq<Bytes>, frame: Bytes)
    ensures Refused(cfg, frames + [frame])
       <==> Refused(cfg, frames) || BadFrame(cfg, frame) || Over(cfg, frames + [frame])
  {
    var all := frames + [frame];
    assert all[..|frames| + 1] == all && all[|frames|] == frame;
    assert forall k :: 0 <= k < |frames| ==> all[..k + 1] == frames[..k + 1] && all[k] == frames[k];
    assert Refuses(cfg, all, |frames|) <==> BadFrame(cfg, frame) || Over(cfg, all);
    if k :| 0 <= k < |frames| && Refuses(cfg, frames, k) {
      assert Refuses(cfg, all, k);
    }
    if k :| 0 <= k < |frames| && Refuses(cfg, all, k) {
      assert Refuses(cfg, frames, k);
    }
  }

  lemma SizesSnoc(cfg: Config, frames: seq<Bytes>, frame: Bytes)
    ensures FrameSizes(cfg, frames + [frame]) == FrameSizes(cfg, frames) + FrameSize(cfg, frame)
  {
    assert (frames + [frame])[..|frames|] == frames;
  }

  lemma LastRefuses(cfg: Config, frames: seq<Bytes>, frame: Bytes, f: Filtered)
    requires !f.failed && f.bytes == FrameSizes(cfg, frames) <= cfg.limit
    requires f.held == Held(cfg, frames) && |f.held| <= cfg.limit + 65536
    requires f.toolSeen <==> FirstTool(cfg, frames) < |frames|
    ensures TakeFrame(cfg, f, frame).failed <==> BadFrame(cfg, frame) || Over(cfg, frames + [frame])
    ensures !TakeFrame(cfg, f, frame).failed ==> TakeFrame(cfg, f, frame).bytes == FrameSizes(cfg, frames + [frame])
  {
    FrameFailsExactlyWhen(cfg, f, frame);
    HeldSnoc(cfg, frames, frame);
    SizesSnoc(cfg, frames, frame);
  }

  /** A sequence of frames is refused exactly if some frame is malformed, or text and tool fragments up to it pass
      the limit, or what is held up to it passes the limit and 64 KiB. */
  lemma {:induction false} FramesFailExactlyWhen(cfg: Config, frames: seq<Bytes>)
    ensures var f := TakeFrames(cfg, IDLE, frames);
            && (f.failed <==> Refused(cfg, frames))
            && (!f.failed ==> f.bytes == FrameSizes(cfg, frames) <= cfg.limit && |f.held| <= cfg.limit + 65536)
  {
    if frames != [] {
      var front, last := frames[..|frames| - 1], frames[|frames| - 1];
      assert front + [last] == frames;
      FramesFailExactlyWhen(cfg, front);
      RefusedSnoc(cfg, front, last);
      var f := TakeFrames(cfg, IDLE, front);
      if !f.failed {
        FramesAreSorted(cfg, front);
        LastRefuses(cfg, front, last, f);
        if !TakeFrame(cfg, f, last).failed {
          HeldWithin(cfg, frames);
        }
      }
    }
  }

  lemma HeldWithin(cfg: Config, frames: seq<Bytes>)
    requires !TakeFrames(cfg, IDLE, frames).failed && !Over(cfg, frames)
    ensures |TakeFrames(cfg, IDLE, frames).held| <= cfg.limit + 65536
  {
    FramesAreSorted(cfg, frames);
  }

  /** The unfinished frame behind some bytes fits: a private error may be larger or smaller than the limit. */
  predicate TailFits(cfg: Config, tail: Bytes) {
    |tail| <= if cfg.privatePrefix(tail) then 256 * 1024 else cfg.limit
  }

  /** A response is accepted exactly if none of its frames is refused and at the end of each read the unfinished
      frame fits. */
  lemma {:induction false} AcceptedExactlyWhen(cfg: Config, chunks: seq<Bytes>)
    ensures FeedAll(cfg, chunks).Fed? <==>
              && !Refused(cfg, Cut(Flatten(chunks)).frames)
              && forall k :: 0 <= k <= |chunks| ==> TailFits(cfg, Cut(Flatten(chunks[..k])).tail)
  {
    ChunksDoNotMatter(cfg, chunks);
    WholeIsFrames(cfg, Flatten(chunks));
    FramesFailExactlyWhen(cfg, Cut(Flatten(chunks)).frames);
    forall k | 0 <= k <= |chunks|
      ensures Overfull(cfg, Whole(cfg, Flatten(chunks[..k]))) <==> !TailFits(cfg, Cut(Flatten(chunks[..k])).tail)
    {
      WholeIsFrames(cfg, Flatten(chunks[..k]));
    }
    if FeedAll(cfg, chunks).Fed? {
      assert Fits(cfg, chunks);
    }
  }

  // --- What a released response holds. ---

  /** The accumulated calls as the validation wants them. */
  predicate Grantable(policy: Policy, used: nat, calls: seq<Call>, allowRetrieval: bool) {
    && (policy.diffOnly ==> calls == []) && WithinLimit(policy, 0, calls) && Sound(policy, calls)
    && (Retrievals(policy, calls) != {} ==> allowRetrieval && MayRetrieve(policy, used, calls))
  }

  /** A response with a tool frame comes out from there on exactly if it was accepted, is complete, holds no private
      error, and its calls, joined from its fragments, are all known, well formed, and within limit and budget. */
  lemma {:induction false} ToolsAreReleasedExactlyWhen(
      cfg: Config, policy: Policy, used: nat, allowRetrieval: bool, chunks: seq<Bytes>, calls: seq<Call>)
    requires var pieces := Cut(Flatten(chunks));
             FirstTool(cfg, pieces.frames) < |pieces.frames| && Joined(calls, FrameTools(cfg, pieces.frames))
    ensures var pieces := Cut(Flatten(chunks));
            Cleared(cfg, policy, used, allowRetrieval, chunks) <==>
              && FeedAll(cfg, chunks).Fed? && pieces.tail == []
              && (forall i :: 0 <= i < |pieces.frames| ==> !IsPrivate(cfg, pieces.frames[i]))
              && Grantable(policy, used, calls, allowRetrieval)
  {
    if FeedAll(cfg, chunks).Fed? {
      var found := FeedAll(cfg, chunks).m.filtered.calls;
      CallsAreTheFragments(cfg, chunks);
      assert found == calls;
      VerdictExactlyWhen(policy, used, 0, calls, allowRetrieval);
    }
  }

  /** So a byte from the first tool frame on comes out only if every call is known and well formed. */
  lemma {:induction false} ReleasedCallsAreSound(
      cfg: Config, policy: Policy, used: nat, allowRetrieval: bool, chunks: seq<Bytes>)
    requires var frames := Cut(Flatten(chunks)).frames; FirstTool(cfg, frames) < |frames|
    requires |Output(cfg, policy, used, allowRetrieval, chunks)| > |Passing(cfg, Flatten(chunks))|
    ensures FeedAll(cfg, chunks).Fed? && Sound(policy, FeedAll(cfg, chunks).m.filtered.calls)
  {
    ToolFramesComeOutExactlyWhen(cfg, policy, used, allowRetrieval, chunks);
    assert Cleared(cfg, policy, used, allowRetrieval, chunks);
    VerdictExactlyWhen(policy, used, 0, FeedAll(cfg, chunks).m.filtered.calls, allowRetrieval);
  }

  // --- How a response ends. ---

  /** The last private error of some frames. */
  function LastPrivate(cfg: Config, frames: seq<Bytes>): Private {
    if frames == [] then NoError
    else if IsPrivate(cfg, frames[|frames| - 1]) then cfg.read(frames[|frames| - 1]).value.private
    else LastPrivate(cfg, frames[..|frames| - 1])
  }

  lemma PrivateTaken(cfg: Config, f: Filtered, frame: Bytes)
    requires !TakeFrame(cfg, f, frame).failed
    ensures !f.failed
    ensures TakeFrame(cfg, f, frame).private
         == if IsPrivate(cfg, frame) then cfg.read(frame).value.private else f.private
  {
  }

  lemma {:induction false} LastPrivateIsKept(cfg: Config, frames: seq<Bytes>)
    requires !TakeFrames(cfg, IDLE, frames).failed
    ensures TakeFrames(cfg, IDLE, frames).private == LastPrivate(cfg, frames)
  {
    if frames != [] {
      var front := frames[..|frames| - 1];
      LastPrivateIsKept(cfg, front);
      PrivateTaken(cfg, TakeFrames(cfg, IDLE, front), frames[|frames| - 1]);
    }
  }

  /** How `finish` ends an accepted response: an unfinished frame comes before a private error, that before the
      verdict on the calls, and only with none of them is anything released. */
  lemma {:induction false} FinishExactlyWhen(
      cfg: Config, policy: Policy, used: nat, allowRetrieval: bool, chunks: seq<Bytes>)
    requires FeedAll(cfg, chunks).Fed?
    ensures var m, pieces := FeedAll(cfg, chunks).m, Cut(Flatten(chunks));
            var end := EndOf(policy, used, m, allowRetrieval);
            var tools := FirstTool(cfg, pieces.frames) < |pieces.frames|;
            && m.filtered.private == LastPrivate(cfg, pieces.frames)
            && (end == Raised(Protocol) <==> pieces.tail != [])
            && (end == Raised(Upstream) <==> pieces.tail == [] && LastPrivate(cfg, pieces.frames) != NoError)
            && (forall reason :: end == Raised(Refusal(reason)) <==>
                  && pieces.tail == [] && LastPrivate(cfg, pieces.frames) == NoError && tools
                  && Judge(policy, used, 0, m.filtered.calls, allowRetrieval)
                     == ResponseValidation.Refused(reason))
            && (end.Released? ==> end.tail == Held(cfg, pieces.frames))
  {
    ChunksDoNotMatter(cfg, chunks);
    WholeIsFrames(cfg, Flatten(chunks));
    FramesAreSorted(cfg, Cut(Flatten(chunks)).frames);
    LastPrivateIsKept(cfg, Cut(Flatten(chunks)).frames);
  }
}
