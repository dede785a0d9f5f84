/** The stream filter of the model gateway as a fold: what one frame does to the calls, to what passes
    and to what is held, and how frames come out of bytes. */
module FilterSpec {
  import opened ByteStrings
  import opened SseFrames
  import opened ResponseValidation

  // --- What a frame's data decodes to; the decoding itself is a parameter. ---

  /** One fragment of a tool call; BadTool is one whose shape the source refuses. */
  datatype Tool = BadTool | Tool(key: Key, name: Bytes, arguments: Bytes)

  /** A choice: bytes of text, fragments of tool calls, and whether it finishes with tool_calls. */
  datatype Choice = BadChoice | Choice(textBytes: nat, tools: seq<Tool>, finishesTools: bool)

  /** The broker's private error entries. */
  datatype Private = NoError | BadError | TransportError | UpstreamError

  /** Decoded data; `listed` says that the choices are a list at all. */
  datatype Value =
    | NotJson
    | NotObject
    | Object(usage: bool, private: Private, listed: bool, choices: seq<Choice>)

  datatype Error = Protocol | Limit | Upstream | Refusal(reason: ResponseValidation.Refusal)

  /** What a frame carries: no data at all, the end mark, or data that decodes to something. */
  datatype Content = Nothing | EndMark | Data(value: Value)

  function ContentOf(decode: Bytes -> Value, frame: Bytes): Content {
    var data := DataOf(frame);
    if data == [] then Nothing else if data == DONE then EndMark else Data(decode(data))
  }

  /** `read` gives a frame's content; `privatePrefix` recognises the beginning of a private error envelope. */
  datatype Config = Config(limit: nat, read: Bytes -> Content, privatePrefix: Bytes -> bool)

  // --- Accumulating calls: a dictionary in insertion order. ---

  function IndexOf(calls: seq<Call>, key: Key): (i: nat)
    ensures i <= |calls|
    ensures i < |calls| ==> calls[i].key == key
  {
    if calls == [] || calls[0].key == key then 0 else 1 + IndexOf(calls[1..], key)
  }

  function AddTool(calls: seq<Call>, key: Key, name: Bytes, arguments: Bytes): seq<Call> {
    var i := IndexOf(calls, key);
    if i == |calls| then calls + [Call(key, name, arguments)]
    else calls[i := Call(key, calls[i].name + name, calls[i].arguments + arguments)]
  }

  lemma CallBytesSnoc(calls: seq<Call>, call: Call)
    ensures CallBytes(calls + [call]) == CallBytes(calls) + |call.name| + |call.arguments|
  {
    assert (calls + [call])[..|calls|] == calls;
  }

  lemma {:induction false} CallBytesUpdate(calls: seq<Call>, i: nat, call: Call)
    requires i < |calls|
    ensures CallBytes(calls[i := call]) + |calls[i].name| + |calls[i].arguments|
         == CallBytes(calls) + |call.name| + |call.arguments|
  {
    var front, last := calls[..|calls| - 1], calls[|calls| - 1];
    assert front + [last] == calls;
    if i == |front| {
      assert calls[i := call] == front + [call];
      CallBytesSnoc(front, call);
    } else {
      CallBytesUpdate(front, i, call);
      assert calls[i := call] == front[i := call] + [last];
      CallBytesSnoc(front[i := call], last);
    }
  }

  lemma AddToolBytes(calls: seq<Call>, key: Key, name: Bytes, arguments: Bytes)
    ensures CallBytes(AddTool(calls, key, name, arguments)) == CallBytes(calls) + |name| + |arguments|
  {
    var i := IndexOf(calls, key);
    if i == |calls| {
      CallBytesSnoc(calls, Call(key, name, arguments));
    } else {
      CallBytesUpdate(calls, i, Call(key, calls[i].name + name, calls[i].arguments + arguments));
    }
  }

  // --- One frame, in the order the source looks at it. ---

  /** The running state of a frame: calls, accounted bytes, whether this is a tool frame, whether it
      means anything beyond a heartbeat, and the first failure. */
  datatype Reading = Reading(calls: seq<Call>, bytes: nat, tool: bool, meaningful: bool, failed: bool, error: Error)

  function Fail(r: Reading, error: Error): Reading {
    r.(failed := true, error := error)
  }

  function Account(r: Reading, limit: nat, size: nat): Reading {
    var counted := r.(bytes := r.bytes + size);
    if counted.bytes > limit then Fail(counted, Limit) else counted
  }

  function ReadTool(r: Reading, limit: nat, tool: Tool): Reading {
    if r.failed then r
    else if tool == BadTool then Fail(r, Protocol)
    else
      var counted := Account(r, limit, |tool.name| + |tool.arguments|);
      if counted.failed then counted
      else counted.(calls := AddTool(r.calls, tool.key, tool.name, tool.arguments), tool := true)
  }

  function ReadTools(r: Reading, limit: nat, tools: seq<Tool>): Reading {
    if tools == [] then r
    else ReadTool(ReadTools(r, limit, tools[..|tools| - 1]), limit, tools[|tools| - 1])
  }

  function ReadChoice(r: Reading, limit: nat, choice: Choice): Reading {
    if r.failed then r
    else if choice == BadChoice then Fail(r, Protocol)
    else
      var counted := Account(r.(meaningful := true), limit, choice.textBytes);
      var after := ReadTools(counted, limit, choice.tools);
      if after.failed then after else after.(tool := after.tool || choice.finishesTools)
  }

  function ReadChoices(r: Reading, limit: nat, choices: seq<Choice>): Reading {
    if choices == [] then r
    else ReadChoice(ReadChoices(r, limit, choices[..|choices| - 1]), limit, choices[|choices| - 1])
  }

  // --- The filter as a fold over frames. ---

  /** State of the filter; `out` is what `feed` has given out, `error` the exception raised. */
  datatype Filtered = Filtered(
    held: Bytes, calls: seq<Call>, toolSeen: bool, bytes: nat, private: Private, out: Bytes, failed: bool, error: Error)

  const IDLE := Filtered([], [], false, 0, NoError, [], false, Protocol)

  function Keep(f: Filtered, limit: nat, frame: Bytes, r: Reading): Filtered {
    var seen := f.toolSeen || r.tool;
    var g := f.(calls := r.calls, bytes := r.bytes, toolSeen := seen);
    if r.failed then g.(failed := true, error := r.error)
    else if !seen then g.(out := f.out + frame)
    else
      var held := if r.meaningful then f.held + frame else f.held;
      if |held| > limit + 65536 then g.(held := held, failed := true, error := Limit) else g.(held := held)
  }

  function Blank(f: Filtered, meaningful: bool): Reading {
    Reading(f.calls, f.bytes, false, meaningful, false, Protocol)
  }

  function TakeFrame(cfg: Config, f: Filtered, frame: Bytes): Filtered {
    if f.failed then f
    else
      match cfg.read(frame)
      case Nothing => Keep(f, cfg.limit, frame, Blank(f, false))
      case EndMark => Keep(f, cfg.limit, frame, Blank(f, true))
      case Data(value) => TakeValue(cfg, f, frame, value)
  }

  function TakeValue(cfg: Config, f: Filtered, frame: Bytes, value: Value): Filtered {
    match value
    case NotJson => f.(failed := true, error := Protocol)
    case NotObject => f.(failed := true, error := Protocol)
    case Object(usage, private, listed, choices) =>
      if private == BadError then f.(failed := true, error := Protocol)
      else if private != NoError then f.(private := private)
      else if !listed then f.(failed := true, error := Protocol)
      else Keep(f, cfg.limit, frame, ReadChoices(Blank(f, usage), cfg.limit, choices))
  }

  function TakeFrames(cfg: Config, f: Filtered, frames: seq<Bytes>): Filtered {
    if frames == [] then f
    else TakeFrame(cfg, TakeFrames(cfg, f, frames[..|frames| - 1]), frames[|frames| - 1])
  }

  // --- Frames out of bytes. ---

  /** The filter between two bytes: frames taken, and the bytes of the frame under way. */
  datatype Machine = Machine(filtered: Filtered, pending: Bytes)

  /** How a response ends: with an error and no further byte, or with what was held. */
  datatype End = Raised(error: Error) | Released(tail: Bytes)

  function EndOf(policy: Policy, used: nat, m: Machine, allowRetrieval: bool): End {
    var verdict := Judge(policy, used, 0, m.filtered.calls, allowRetrieval);
    if m.pending != [] then Raised(Protocol)
    else if m.filtered.private != NoError then Raised(Upstream)
    else if m.filtered.toolSeen && verdict.Refused? then Raised(Refusal(verdict.reason))
    else Released(m.filtered.held)
  }

  function Push(cfg: Config, m: Machine, b: byte): Machine {
    var pending := m.pending + [b];
    if EndsFrame(pending, |pending|) then Machine(TakeFrame(cfg, m.filtered, pending), [])
    else Machine(m.filtered, pending)
  }

  function Scan(cfg: Config, m: Machine, s: Bytes): Machine
    decreases |s|
  {
    if s == [] then m else Scan(cfg, Push(cfg, m, s[0]), s[1..])
  }

  const MAX_UPSTREAM_ERROR_ENVELOPE: nat := 256 * 1024

  function PendingLimit(cfg: Config, pending: Bytes): nat {
    if cfg.privatePrefix(pending) then MAX_UPSTREAM_ERROR_ENVELOPE else cfg.limit
  }

  lemma {:induction false} ScanConcat(cfg: Config, m: Machine, s: Bytes, t: Bytes)
    ensures Scan(cfg, m, s + t) == Scan(cfg, Scan(cfg, m, s), t)
    decreases |s|
  {
    if s == [] {
      assert s + t == t;
    } else {
      assert (s + t)[1..] == s[1..] + t;
      ScanConcat(cfg, Push(cfg, m, s[0]), s[1..], t);
    }
  }

  /** No separator ends within the bytes, given what is pending in front of them. */
  ghost predicate Quiet(pending: Bytes, s: Bytes) {
    forall k :: |pending| < k <= |pending| + |s| ==> !EndsFrame(pending + s, k)
  }

  lemma EndsFrameStable(s: Bytes, t: Bytes, k: nat)
    requires k <= |s|
    ensures EndsFrame(s + t, k) == EndsFrame(s, k)
  {
  }

  lemma {:induction false} ScanQuiet(cfg: Config, m: Machine, s: Bytes)
    requires Quiet(m.pending, s)
    ensures Scan(cfg, m, s) == Machine(m.filtered, m.pending + s)
    decreases |s|
  {
    if s == [] {
      assert m.pending + s == m.pending;
    } else {
      var next := m.pending + [s[0]];
      assert m.pending + s == next + s[1..];
      EndsFrameStable(next, s[1..], |next|);
      ScanQuiet(cfg, Machine(m.filtered, next), s[1..]);
    }
  }

  lemma QuietBeforeMatch(s: Bytes, from: nat, to: nat)
    requires IsMatch(s, from, to)
    ensures to >= 2 && Quiet([], s[..to - 1])
  {
    MatchEndsFirst(s, from, to);
    var quiet, rest := s[..to - 1], s[to - 1..];
    assert [] + quiet == quiet && quiet + rest == s;
    forall k | 0 < k <= |quiet|
      ensures !EndsFrame(quiet, k)
    {
      EndsFrameStable(quiet, rest, k);
    }
  }

  lemma ScanStep(cfg: Config, m: Machine, s: Bytes, at: nat)
    requires at < |s|
    ensures Scan(cfg, m, s[at..]) == Scan(cfg, Push(cfg, m, s[at]), s[at + 1..])
  {
    assert s[at..][1..] == s[at + 1..];
  }

  lemma ScanUpToMatch(cfg: Config, filtered: Filtered, s: Bytes, from: nat, to: nat)
    requires IsMatch(s, from, to)
    ensures to >= 2
    ensures Scan(cfg, Machine(filtered, []), s) == Scan(cfg, Machine(filtered, s[..to - 1]), s[to - 1..])
  {
    QuietBeforeMatch(s, from, to);
    ScanConcat(cfg, Machine(filtered, []), s[..to - 1], s[to - 1..]);
    ScanQuiet(cfg, Machine(filtered, []), s[..to - 1]);
    assert s[..to - 1] + s[to - 1..] == s && [] + s[..to - 1] == s[..to - 1];
  }

  lemma MatchEndsItsPrefix(s: Bytes, from: nat, to: nat)
    requires IsMatch(s, from, to)
    ensures EndsFrame(s[..to], to)
  {
    MatchEndsFirst(s, from, to);
    EndsFrameStable(s[..to], s[to..], to);
    assert s[..to] + s[to..] == s;
  }

  /** A frame that the search finds is the next frame the byte machine takes. */
  lemma ScanFrame(cfg: Config, filtered: Filtered, s: Bytes, from: nat, to: nat)
    requires IsMatch(s, from, to)
    ensures Scan(cfg, Machine(filtered, []), s)
         == Scan(cfg, Machine(TakeFrame(cfg, filtered, s[..to]), []), s[to..])
  {
    ScanUpToMatch(cfg, filtered, s, from, to);
    ScanStep(cfg, Machine(filtered, s[..to - 1]), s, to - 1);
    assert s[..to - 1] + [s[to - 1]] == s[..to];
    MatchEndsItsPrefix(s, from, to);
  }

  lemma ScanNoFrame(cfg: Config, filtered: Filtered, s: Bytes)
    requires Search(s) == NoMatch
    ensures Scan(cfg, Machine(filtered, []), s) == Machine(filtered, s)
    ensures Quiet([], s)
  {
    NoMatchNoEnd(s);
    assert [] + s == s;
    ScanQuiet(cfg, Machine(filtered, []), s);
  }

  // --- A failure, once raised, stays. ---

  lemma {:induction false} ToolsStayFailed(r: Reading, limit: nat, tools: seq<Tool>, i: nat)
    requires i <= |tools| && ReadTools(r, limit, tools[..i]).failed
    ensures ReadTools(r, limit, tools) == ReadTools(r, limit, tools[..i])
  {
    if i == |tools| {
      assert tools[..i] == tools;
    } else {
      assert tools[..|tools| - 1][..i] == tools[..i];
      ToolsStayFailed(r, limit, tools[..|tools| - 1], i);
    }
  }

  lemma {:induction false} ChoicesStayFailed(r: Reading, limit: nat, choices: seq<Choice>, i: nat)
    requires i <= |choices| && ReadChoices(r, limit, choices[..i]).failed
    ensures ReadChoices(r, limit, choices) == ReadChoices(r, limit, choices[..i])
  {
    if i == |choices| {
      assert choices[..i] == choices;
    } else {
      assert choices[..|choices| - 1][..i] == choices[..i];
      ChoicesStayFailed(r, limit, choices[..|choices| - 1], i);
    }
  }

  lemma {:induction false} ScanStaysFailed(cfg: Config, m: Machine, s: Bytes)
    requires m.filtered.failed
    ensures Scan(cfg, m, s).filtered == m.filtered
    decreases |s|
  {
    if s != [] {
      ScanStaysFailed(cfg, Push(cfg, m, s[0]), s[1..]);
    }
  }

  lemma ReadToolsNext(r: Reading, limit: nat, tools: seq<Tool>, i: nat)
    requires i < |tools|
    ensures ReadTools(r, limit, tools[..i + 1]) == ReadTool(ReadTools(r, limit, tools[..i]), limit, tools[i])
  {
    assert tools[..i + 1][..i] == tools[..i];
  }

  lemma ReadChoicesNext(r: Reading, limit: nat, choices: seq<Choice>, i: nat)
    requires i < |choices|
    ensures ReadChoices(r, limit, choices[..i + 1])
         == ReadChoice(ReadChoices(r, limit, choices[..i]), limit, choices[i])
  {
    assert choices[..i + 1][..i] == choices[..i];
  }

  lemma {:induction false} ReadToolsOfFailed(r: Reading, limit: nat, tools: seq<Tool>)
    requires r.failed
    ensures ReadTools(r, limit, tools) == r
  {
    assert tools[..0] == [];
    ToolsStayFailed(r, limit, tools, 0);
  }
}
