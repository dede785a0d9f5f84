/** Which calls the stream filter and the batch parser accumulate, in terms of the fragments a response holds. */
module CallAccumulation {
  import opened ByteStrings
  import opened ResponseValidation
  import opened FilterSpec
  import opened FilterStreams
  import opened BatchParser

  // --- What the fragments add up to. ---

  /** The keys, in the order of their first fragments. */
  function KeysOf(tools: seq<Tool>): seq<Key> {
    if tools == [] then []
    else
      var keys, last := KeysOf(tools[..|tools| - 1]), tools[|tools| - 1];
      if last.Tool? && last.key !in keys then keys + [last.key] else keys
  }

  /** The fragments of one call, in order. */
  function OfKey(tools: seq<Tool>, key: Key): (part: seq<Tool>)
    ensures forall tool :: tool in part ==> tool.Tool? && tool.key == key && tool in tools
  {
    if tools == [] then []
    else
      var last := tools[|tools| - 1];
      OfKey(tools[..|tools| - 1], key) + if last.Tool? && last.key == key then [last] else []
  }

  function NamesIn(tools: seq<Tool>): seq<Bytes>
    requires forall tool :: tool in tools ==> tool.Tool?
  {
    seq(|tools|, i requires 0 <= i < |tools| => tools[i].name)
  }

  function ArgumentsIn(tools: seq<Tool>): seq<Bytes>
    requires forall tool :: tool in tools ==> tool.Tool?
  {
    seq(|tools|, i requires 0 <= i < |tools| => tools[i].arguments)
  }

  /** One call per key, its name and its arguments joined from the fragments of that key as they came. */
  function CallOf(tools: seq<Tool>, key: Key): Call {
    Call(key, Flatten(NamesIn(OfKey(tools, key))), Flatten(ArgumentsIn(OfKey(tools, key))))
  }

  ghost predicate Joined(calls: seq<Call>, tools: seq<Tool>) {
    && |calls| == |KeysOf(tools)|
    && forall i :: 0 <= i < |calls| ==> calls[i] == CallOf(tools, KeysOf(tools)[i])
  }

  lemma {:induction false} KeysDiffer(tools: seq<Tool>)
    ensures forall i, j :: 0 <= i < j < |KeysOf(tools)| ==> KeysOf(tools)[i] != KeysOf(tools)[j]
  {
    if tools != [] {
      KeysDiffer(tools[..|tools| - 1]);
    }
  }

  lemma {:induction false} KeyIsUsed(tools: seq<Tool>, key: Key)
    ensures key in KeysOf(tools) <==> OfKey(tools, key) != []
  {
    if tools != [] {
      KeyIsUsed(tools[..|tools| - 1], key);
    }
  }

  lemma OfKeySnoc(tools: seq<Tool>, tool: Tool, key: Key)
    requires tool.Tool?
    ensures OfKey(tools + [tool], key) == OfKey(tools, key) + if tool.key == key then [tool] else []
    ensures KeysOf(tools + [tool]) == if tool.key in KeysOf(tools) then KeysOf(tools) else KeysOf(tools) + [tool.key]
  {
    assert (tools + [tool])[..|tools|] == tools;
  }

  lemma PartSnoc(part: seq<Tool>, tool: Tool)
    requires tool.Tool? && forall t :: t in part ==> t.Tool?
    ensures Flatten(NamesIn(part + [tool])) == Flatten(NamesIn(part)) + tool.name
    ensures Flatten(ArgumentsIn(part + [tool])) == Flatten(ArgumentsIn(part)) + tool.arguments
  {
    assert NamesIn(part + [tool]) == NamesIn(part) + [tool.name];
    assert ArgumentsIn(part + [tool]) == ArgumentsIn(part) + [tool.arguments];
    FlattenSnoc(NamesIn(part), tool.name);
    FlattenSnoc(ArgumentsIn(part), tool.arguments);
  }

  lemma CallSnoc(tools: seq<Tool>, tool: Tool, key: Key)
    requires tool.Tool?
    ensures CallOf(tools + [tool], key)
         == if tool.key != key then CallOf(tools, key)
            else Call(key, CallOf(tools, key).name + tool.name, CallOf(tools, key).arguments + tool.arguments)
  {
    OfKeySnoc(tools, tool, key);
    if tool.key == key {
      PartSnoc(OfKey(tools, key), tool);
    } else {
      assert OfKey(tools, key) + [] == OfKey(tools, key);
    }
  }

  lemma {:induction false} IndexFinds(calls: seq<Call>, key: Key)
    ensures IndexOf(calls, key) == |calls| ==> forall i :: 0 <= i < |calls| ==> calls[i].key != key
    decreases |calls|
  {
    if calls != [] && calls[0].key != key {
      IndexFinds(calls[1..], key);
      assert forall i :: 1 <= i < |calls| ==> calls[i] == calls[1..][i - 1];
    }
  }

  lemma NewCall(tools: seq<Tool>, tool: Tool)
    requires tool.Tool? && tool.key !in KeysOf(tools)
    ensures CallOf(tools + [tool], tool.key) == Call(tool.key, tool.name, tool.arguments)
  {
    KeyIsUsed(tools, tool.key);
    CallSnoc(tools, tool, tool.key);
    assert NamesIn([]) == [] && ArgumentsIn([]) == [];
    assert [] + tool.name == tool.name && [] + tool.arguments == tool.arguments;
  }

  lemma KnownKeyJoins(calls: seq<Call>, tools: seq<Tool>, tool: Tool, i: nat)
    requires Joined(calls, tools) && tool.Tool? && i < |calls| && calls[i].key == tool.key
    ensures Joined(calls[i := Call(tool.key, calls[i].name + tool.name, calls[i].arguments + tool.arguments)],
                   tools + [tool])
  {
    var keys := KeysOf(tools);
    KeysDiffer(tools);
    OfKeySnoc(tools, tool, tool.key);
    assert keys[i] == tool.key;
    forall j | 0 <= j < |keys|
      ensures CallOf(tools + [tool], keys[j])
           == if j != i then calls[j]
              else Call(keys[j], calls[j].name + tool.name, calls[j].arguments + tool.arguments)
    {
      CallSnoc(tools, tool, keys[j]);
    }
  }

  lemma OtherCallStays(tools: seq<Tool>, tool: Tool, key: Key)
    requires tool.Tool? && tool.key !in KeysOf(tools) && key in KeysOf(tools)
    ensures CallOf(tools + [tool], key) == CallOf(tools, key)
  {
    CallSnoc(tools, tool, key);
  }

  lemma JoinedSnoc(calls: seq<Call>, call: Call, keys: seq<Key>, key: Key, more: seq<Tool>)
    requires |calls| == |keys| && KeysOf(more) == keys + [key] && call == CallOf(more, key)
    requires forall i :: 0 <= i < |calls| ==> calls[i] == CallOf(more, keys[i])
    ensures Joined(calls + [call], more)
  {
  }

  lemma NewKeyJoins(calls: seq<Call>, tools: seq<Tool>, tool: Tool)
    requires Joined(calls, tools) && tool.Tool? && tool.key !in KeysOf(tools)
    ensures Joined(calls + [Call(tool.key, tool.name, tool.arguments)], tools + [tool])
  {
    var keys, more := KeysOf(tools), tools + [tool];
    OfKeySnoc(tools, tool, tool.key);
    NewCall(tools, tool);
    forall i | 0 <= i < |calls|
      ensures calls[i] == CallOf(more, keys[i])
    {
      OtherCallStays(tools, tool, keys[i]);
    }
    JoinedSnoc(calls, Call(tool.key, tool.name, tool.arguments), keys, tool.key, more);
  }

  lemma KeysAre(calls: seq<Call>, tools: seq<Tool>, key: Key)
    requires Joined(calls, tools) && forall i :: 0 <= i < |calls| ==> calls[i].key != key
    ensures key !in KeysOf(tools)
  {
    forall i | 0 <= i < |calls|
      ensures KeysOf(tools)[i] != key
    {
      assert calls[i].key == KeysOf(tools)[i];
    }
  }

  /** A fragment goes to the end of its own call and to no other. */
  lemma AddToolJoins(calls: seq<Call>, tools: seq<Tool>, tool: Tool)
    requires Joined(calls, tools) && tool.Tool?
    ensures Joined(AddTool(calls, tool.key, tool.name, tool.arguments), tools + [tool])
  {
    var i := IndexOf(calls, tool.key);
    if i == |calls| {
      IndexFinds(calls, tool.key);
      KeysAre(calls, tools, tool.key);
      NewKeyJoins(calls, tools, tool);
    } else {
      KnownKeyJoins(calls, tools, tool, i);
    }
  }

  // --- The fragments of a response. ---

  function ToolsOf(choice: Choice): seq<Tool> {
    if choice.Choice? then choice.tools else []
  }

  function ToolsIn(choices: seq<Choice>): seq<Tool> {
    if choices == [] then [] else ToolsIn(choices[..|choices| - 1]) + ToolsOf(choices[|choices| - 1])
  }

  function ContentTools(content: Content): seq<Tool> {
    if content.Data? && content.value.Object? && content.value.listed then ToolsIn(content.value.choices) else []
  }

  function AllTools(contents: seq<Content>): seq<Tool> {
    if contents == [] then [] else AllTools(contents[..|contents| - 1]) + ContentTools(contents[|contents| - 1])
  }

  lemma ToolJoins(r: Reading, limit: nat, tool: Tool, seen: seq<Tool>)
    requires Joined(r.calls, seen) && !ReadTool(r, limit, tool).failed
    ensures Joined(ReadTool(r, limit, tool).calls, seen + [tool])
  {
    AddToolJoins(r.calls, seen, tool);
  }

  lemma ToolsSnoc(r: Reading, limit: nat, front: seq<Tool>, last: Tool)
    ensures ReadTools(r, limit, front + [last]) == ReadTool(ReadTools(r, limit, front), limit, last)
  {
    assert (front + [last])[..|front|] == front;
  }

  lemma {:induction false} ToolsJoin(r: Reading, limit: nat, tools: seq<Tool>, seen: seq<Tool>)
    requires Joined(r.calls, seen) && !ReadTools(r, limit, tools).failed
    ensures Joined(ReadTools(r, limit, tools).calls, seen + tools)
    decreases |tools|
  {
    if tools == [] {
      assert seen + tools == seen;
    } else {
      var front, last := tools[..|tools| - 1], tools[|tools| - 1];
      assert front + [last] == tools;
      ToolsSnoc(r, limit, front, last);
      ToolsJoin(r, limit, front, seen);
      ToolJoins(ReadTools(r, limit, front), limit, last, seen + front);
      Associate(seen, front, [last]);
    }
  }

  lemma {:induction false} ChoicesJoin(r: Reading, limit: nat, choices: seq<Choice>, seen: seq<Tool>)
    requires Joined(r.calls, seen) && !ReadChoices(r, limit, choices).failed
    ensures Joined(ReadChoices(r, limit, choices).calls, seen + ToolsIn(choices))
    decreases |choices|
  {
    if choices == [] {
      assert seen + ToolsIn(choices) == seen;
    } else {
      var front, last := choices[..|choices| - 1], choices[|choices| - 1];
      ChoicesJoin(r, limit, front, seen);
      var counted := Account(ReadChoices(r, limit, front).(meaningful := true), limit, last.textBytes);
      ToolsFlag(counted, limit, last.tools);
      ToolsJoin(counted, limit, last.tools, seen + ToolsIn(front));
      Associate(seen, ToolsIn(front), last.tools);
    }
  }

  lemma FrameJoins(cfg: Config, f: Filtered, frame: Bytes, seen: seq<Tool>)
    requires Joined(f.calls, seen) && !TakeFrame(cfg, f, frame).failed
    ensures Joined(TakeFrame(cfg, f, frame).calls,
                   seen + if IsPrivate(cfg, frame) then [] else ContentTools(cfg.read(frame)))
  {
    assert seen + [] == seen;
    if HasObject(cfg, frame) && !IsPrivate(cfg, frame) {
      var value := cfg.read(frame).value;
      ChoicesJoin(Blank(f, value.usage), cfg.limit, value.choices, seen);
    }
  }

  function FrameTools(cfg: Config, frames: seq<Bytes>): seq<Tool> {
    if frames == [] then []
    else
      var last := frames[|frames| - 1];
      FrameTools(cfg, frames[..|frames| - 1]) + if IsPrivate(cfg, last) then [] else ContentTools(cfg.read(last))
  }

  lemma {:induction false} FramesJoin(cfg: Config, frames: seq<Bytes>)
    requires !TakeFrames(cfg, IDLE, frames).failed
    ensures Joined(TakeFrames(cfg, IDLE, frames).calls, FrameTools(cfg, frames))
  {
    if frames != [] {
      var front := frames[..|frames| - 1];
      FramesJoin(cfg, front);
      FrameJoins(cfg, TakeFrames(cfg, IDLE, front), frames[|frames| - 1], FrameTools(cfg, front));
    }
  }

  /** Over any accepted stream, however it was cut: one call for each key, in the order of the keys' first
      fragments, its name and its arguments the fragments of that key in the order of the stream. */
  lemma {:induction false} CallsAreTheFragments(cfg: Config, chunks: seq<Bytes>)
    requires FeedAll(cfg, chunks).Fed?
    ensures Joined(FeedAll(cfg, chunks).m.filtered.calls, FrameTools(cfg, Cut(Flatten(chunks)).frames))
  {
    ChunksDoNotMatter(cfg, chunks);
    WholeIsFrames(cfg, Flatten(chunks));
    FramesJoin(cfg, Cut(Flatten(chunks)).frames);
  }

  // --- The same for the batch parser. ---

  lemma {:induction false} ToolsParse(calls: seq<Call>, tools: seq<Tool>, seen: seq<Tool>)
    requires Joined(calls, seen)
    ensures ParseTools(Parsed(calls), tools).Parsed? ==> Joined(ParseTools(Parsed(calls), tools).calls, seen + tools)
    decreases |tools|
  {
    if tools == [] {
      assert seen + tools == seen;
    } else {
      var front, last := tools[..|tools| - 1], tools[|tools| - 1];
      ToolsParse(calls, front, seen);
      assert tools == front + [last];
      if ParseTools(Parsed(calls), tools).Parsed? {
        AddToolJoins(ParseTools(Parsed(calls), front).calls, seen + front, last);
        Associate(seen, front, [last]);
      }
    }
  }

  lemma {:induction false} ChoicesParse(calls: seq<Call>, choices: seq<Choice>, seen: seq<Tool>)
    requires Joined(calls, seen)
    ensures var p := ParseChoices(Parsed(calls), choices); p.Parsed? ==> Joined(p.calls, seen + ToolsIn(choices))
    decreases |choices|
  {
    if choices == [] {
      assert seen + ToolsIn(choices) == seen;
    } else {
      var front, last := choices[..|choices| - 1], choices[|choices| - 1];
      ChoicesParse(calls, front, seen);
      assert choices == front + [last];
      var before := ParseChoices(Parsed(calls), front);
      if before.Parsed? && last.Choice? {
        ToolsParse(before.calls, last.tools, seen + ToolsIn(front));
        Associate(seen, ToolsIn(front), last.tools);
      }
    }
  }

  /** Where the parser of a whole body does not fail it has the calls that the fragments add up to. */
  lemma {:induction false} ParsedCallsAreTheFragments(contents: seq<Content>)
    ensures var p := ParseContents(Parsed([]), contents); p.Parsed? ==> Joined(p.calls, AllTools(contents))
  {
    if contents != [] {
      var front, last := contents[..|contents| - 1], contents[|contents| - 1];
      ParsedCallsAreTheFragments(front);
      var before := ParseContents(Parsed([]), front);
      if before.Parsed? {
        ContentParses(before.calls, last, AllTools(front));
      }
    }
  }

  lemma ContentParses(calls: seq<Call>, content: Content, seen: seq<Tool>)
    requires Joined(calls, seen)
    ensures var p := ParseContent(Parsed(calls), content);
            p.Parsed? ==> Joined(p.calls, seen + ContentTools(content))
  {
    assert seen + [] == seen;
    if content.Data? && content.value.Object? && content.value.listed {
      ChoicesParse(calls, content.value.choices, seen);
    }
  }
}
