/** The gateway's stream filter: plain frames pass at once, everything from the first tool frame on is
    held until the accumulated calls have been validated. */
module StreamFilter {
  import opened ByteStrings
  import opened SseFrames
  import opened ResponseValidation
  import opened FilterSpec

  class Filter {
    const cfg: Config
    var pending: Bytes
    var held: Bytes
    var calls: seq<Call>
    var toolSeen: bool
    var structuredBytes: nat
    var upstreamError: Private

    ghost predicate Valid()
      reads this
    {
      Quiet([], pending)
    }

    /** The state between two frames, given what this call of `feed` has put out so far. */
    ghost function View(out: Bytes): Filtered
      reads this
    {
      Filtered(held, calls, toolSeen, structuredBytes, upstreamError, out, false, Protocol)
    }

    constructor (cfg: Config)
      ensures Valid() && this.cfg == cfg && pending == [] && View([]) == IDLE
    {
      this.cfg := cfg;
      pending, held, calls, toolSeen, structuredBytes, upstreamError := [], [], [], false, 0, NoError;
    }

    method ReadTools(tools: seq<Tool>, ghost r: Reading) returns (tool: bool, failed: bool, error: Error)
      requires r.calls == calls && r.bytes == structuredBytes && !r.failed && r.error == Protocol
      modifies this`calls, this`structuredBytes
      ensures var after := FilterSpec.ReadTools(r, cfg.limit, tools);
              && failed == after.failed && error == after.error
              && (!failed ==> after == r.(calls := calls, bytes := structuredBytes, tool := r.tool || tool))
    {
      tool, failed, error := false, false, Protocol;
      for i := 0 to |tools|
        invariant FilterSpec.ReadTools(r, cfg.limit, tools[..i])
               == r.(calls := calls, bytes := structuredBytes, tool := r.tool || tool)
        invariant !failed && error == Protocol
      {
        ReadToolsNext(r, cfg.limit, tools, i);
        var next := tools[i];
        if next == BadTool {
          ToolsStayFailed(r, cfg.limit, tools, i + 1);
          return tool, true, Protocol;
        }
        structuredBytes := structuredBytes + |next.name| + |next.arguments|;
        if structuredBytes > cfg.limit {
          ToolsStayFailed(r, cfg.limit, tools, i + 1);
          return tool, true, Limit;
        }
        calls := AddTool(calls, next.key, next.name, next.arguments);
        tool := true;
      }
      assert tools[..|tools|] == tools;
    }

    method ReadChoice(choice: Choice, ghost r: Reading) returns (tool: bool, failed: bool, error: Error)
      requires r.calls == calls && r.bytes == structuredBytes && !r.failed && r.error == Protocol
      modifies this`calls, this`structuredBytes
      ensures var after := FilterSpec.ReadChoice(r, cfg.limit, choice);
              && failed == after.failed && error == after.error
              && (!failed ==>
                    after == r.(calls := calls, bytes := structuredBytes, tool := r.tool || tool, meaningful := true))
    {
      if choice == BadChoice {
        return false, true, Protocol;
      }
      structuredBytes := structuredBytes + choice.textBytes;
      if structuredBytes > cfg.limit {
        ReadToolsOfFailed(Account(r.(meaningful := true), cfg.limit, choice.textBytes), cfg.limit, choice.tools);
        return false, true, Limit;
      }
      tool, failed, error := ReadTools(choice.tools, r.(meaningful := true, bytes := structuredBytes));
      tool := tool || choice.finishesTools;
    }

    method ReadChoices(choices: seq<Choice>, usage: bool)
      returns (tool: bool, meaningful: bool, failed: bool, error: Error)
      modifies this`calls, this`structuredBytes
      ensures var after := FilterSpec.ReadChoices(Blank(old(View([])), usage), cfg.limit, choices);
              && failed == after.failed && error == after.error
              && (!failed ==> after == Reading(calls, structuredBytes, tool, meaningful, false, Protocol))
    {
      ghost var start := Blank(View([]), usage);
      tool, meaningful, failed, error := false, usage, false, Protocol;
      for i := 0 to |choices|
        invariant FilterSpec.ReadChoices(start, cfg.limit, choices[..i])
               == Reading(calls, structuredBytes, tool, meaningful, false, Protocol)
      {
        ReadChoicesNext(start, cfg.limit, choices, i);
        var more, stop, why := ReadChoice(
          choices[i], Reading(calls, structuredBytes, tool, meaningful, false, Protocol));
        if stop {
          ChoicesStayFailed(start, cfg.limit, choices, i + 1);
          return tool, meaningful, true, why;
        }
        tool, meaningful := tool || more, true;
      }
      assert choices[..|choices|] == choices;
      failed, error := false, Protocol;
    }

    /** One complete frame: what is put out, or the exception. */
    method TakeFrame(frame: Bytes, ghost out: Bytes) returns (released: Bytes, failed: bool, error: Error)
      modifies this`held, this`calls, this`toolSeen, this`structuredBytes, this`upstreamError
      ensures var f := FilterSpec.TakeFrame(cfg, old(View(out)), frame);
              && failed == f.failed && (failed ==> error == f.error)
              && (!failed ==> f == View(out + released))
    {
      released, failed, error := [], false, Protocol;
      assert out + [] == out;
      var content := cfg.read(frame);
      var tool, meaningful := false, content == EndMark;
      if content.Data? {
        var value := content.value;
        if value.NotJson? || value.NotObject? || value.private == BadError {
          return [], true, Protocol;
        }
        if value.private != NoError {
          upstreamError := value.private;
          return;
        }
        if !value.listed {
          return [], true, Protocol;
        }
        var stop: bool, why: Error;
        tool, meaningful, stop, why := ReadChoices(value.choices, value.usage);
        if stop {
          return [], true, why;
        }
      }
      if tool {
        toolSeen := true;
      }
      if toolSeen {
        if meaningful {
          held := held + frame;
        }
        if |held| > cfg.limit + 65536 {
          return [], true, Limit;
        }
      } else {
        released := frame;
      }
    }

    method Feed(chunk: Bytes) returns (output: Bytes, failed: bool, error: Error)
      requires Valid()
      modifies this
      ensures var end := Scan(cfg, Machine(old(View([])), []), old(pending) + chunk);
              && failed == (end.filtered.failed || |end.pending| > PendingLimit(cfg, end.pending))
              && (failed ==> error == if end.filtered.failed then end.filtered.error else Limit)
              && (!failed ==> Valid() && end == Machine(View(output), pending))
    {
      pending := pending + chunk;
      output, failed, error := [], false, Protocol;
      ghost var all, start := pending, Machine(View([]), []);
      while true
        invariant !failed && error == Protocol
        invariant Scan(cfg, start, all) == Scan(cfg, Machine(View(output), []), pending)
        decreases |pending|
      {
        var match_ := Search(pending);
        if match_ == NoMatch {
          ScanNoFrame(cfg, View(output), pending);
          break;
        }
        ScanFrame(cfg, View(output), pending, match_.from, match_.to);
        var frame := pending[..match_.to];
        pending := pending[match_.to..];
        var released: Bytes;
        ghost var before := View(output);
        released, failed, error := TakeFrame(frame, output);
        if failed {
          ScanStaysFailed(cfg, Machine(FilterSpec.TakeFrame(cfg, before, frame), []), pending);
          return [], true, error;
        }
        error := Protocol;
        output := output + released;
      }
      if |pending| > PendingLimit(cfg, pending) {
        return [], true, Limit;
      }
    }

    /** End of the stream: an unfinished frame or a private error refuses; held bytes come out only if
        the accumulated calls are granted. */
    method Finish(validator: Validator, allowRetrieval: bool) returns (tail: Bytes, failed: bool, error: Error)
      modifies this`pending, validator`retrievalUsed
      ensures (if failed then Raised(error) else Released(tail))
           == EndOf(validator.policy, old(validator.retrievalUsed), old(Machine(View([]), pending)), allowRetrieval)
      ensures failed ==> tail == []
      ensures pending == []
      ensures var verdict := Judge(validator.policy, old(validator.retrievalUsed), 0, calls, allowRetrieval);
              validator.retrievalUsed == old(validator.retrievalUsed)
                + if !failed && toolSeen then Charge(validator.policy, verdict) else 0
    {
      if pending != [] {
        pending := [];
        return [], true, Protocol;
      }
      if upstreamError != NoError {
        return [], true, Upstream;
      }
      if toolSeen {
        var verdict := validator.ValidateResponse(0, calls, allowRetrieval);
        if verdict.Refused? {
          return [], true, Refusal(verdict.reason);
        }
      }
      return held, false, Protocol;
    }
  }
}
