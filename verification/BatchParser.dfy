/** The parser that reads the tool calls out of a whole event stream at once, and its agreement with
    the incremental accumulation of the stream filter. */
module BatchParser {
  import opened ByteStrings
  import opened SseFrames
  import opened ResponseValidation
  import opened FilterSpec
  import opened FilterStreams

  datatype Parsed = Malformed | Parsed(calls: seq<Call>)

  function ParseTool(p: Parsed, tool: Tool): Parsed {
    if p == Malformed || tool == BadTool then Malformed
    else Parsed(AddTool(p.calls, tool.key, tool.name, tool.arguments))
  }

  function ParseTools(p: Parsed, tools: seq<Tool>): Parsed {
    if tools == [] then p else ParseTool(ParseTools(p, tools[..|tools| - 1]), tools[|tools| - 1])
  }

  function ParseChoices(p: Parsed, choices: seq<Choice>): Parsed {
    if choices == [] then p
    else
      var front, last := ParseChoices(p, choices[..|choices| - 1]), choices[|choices| - 1];
      if front == Malformed || last == BadChoice then Malformed else ParseTools(front, last.tools)
  }

  /** Data that is not JSON is skipped here; anything else without a list of choices is not. */
  function ParseContent(p: Parsed, content: Content): Parsed {
    if p == Malformed then p
    else
      match content
      case Data(Object(_, _, listed, choices)) => if listed then ParseChoices(p, choices) else Malformed
      case _ => p
  }

  function ParseContents(p: Parsed, contents: seq<Content>): Parsed {
    if contents == [] then p
    else ParseContent(ParseContents(p, contents[..|contents| - 1]), contents[|contents| - 1])
  }

  /** What splitting at the separator gives: the separators are gone, the last piece may be empty. */
  function Blocks(s: Bytes): seq<Bytes>
    decreases |s|
  {
    match Search(s)
    case NoMatch => [s]
    case Match(from, to) => [s[..from]] + Blocks(s[to..])
  }

  function ContentsBy(read: Bytes -> Content, pieces: seq<Bytes>): (contents: seq<Content>)
    ensures |contents| == |pieces|
  {
    if pieces == [] then [] else ContentsBy(read, pieces[..|pieces| - 1]) + [read(pieces[|pieces| - 1])]
  }

  function Contents(decode: Bytes -> Value, pieces: seq<Bytes>): (contents: seq<Content>)
    ensures |contents| == |pieces|
  {
    ContentsBy(piece => ContentOf(decode, piece), pieces)
  }

  lemma {:induction false} ContentsAt(read: Bytes -> Content, pieces: seq<Bytes>, i: nat)
    requires i < |pieces|
    ensures ContentsBy(read, pieces)[i] == read(pieces[i])
    decreases |pieces|
  {
    if i < |pieces| - 1 {
      ContentsAt(read, pieces[..|pieces| - 1], i);
    }
  }

  lemma {:induction false} ContentsByCons(read: Bytes -> Content, piece: Bytes, pieces: seq<Bytes>)
    ensures ContentsBy(read, [piece] + pieces) == [read(piece)] + ContentsBy(read, pieces)
    decreases |pieces|
  {
    if pieces == [] {
      assert [piece] + pieces == [] + [piece];
    } else {
      var front, last := pieces[..|pieces| - 1], pieces[|pieces| - 1];
      ContentsByCons(read, piece, front);
      assert ([piece] + pieces)[..|pieces|] == [piece] + front;
      Associate([read(piece)], ContentsBy(read, front), [read(last)]);
    }
  }

  lemma {:induction false} ToolsFailForGood(tools: seq<Tool>)
    ensures ParseTools(Malformed, tools) == Malformed
  {
    if tools != [] {
      ToolsFailForGood(tools[..|tools| - 1]);
    }
  }

  lemma {:induction false} ToolsPrefixFails(p: Parsed, tools: seq<Tool>, i: nat)
    requires i <= |tools| && ParseTools(p, tools[..i]) == Malformed
    ensures ParseTools(p, tools) == Malformed
  {
    if i < |tools| {
      assert tools[..|tools| - 1][..i] == tools[..i];
      ToolsPrefixFails(p, tools[..|tools| - 1], i);
    } else {
      assert tools[..i] == tools;
    }
  }

  lemma {:induction false} ChoicesPrefixFails(p: Parsed, choices: seq<Choice>, i: nat)
    requires i <= |choices| && ParseChoices(p, choices[..i]) == Malformed
    ensures ParseChoices(p, choices) == Malformed
  {
    if i < |choices| {
      assert choices[..|choices| - 1][..i] == choices[..i];
      ChoicesPrefixFails(p, choices[..|choices| - 1], i);
    } else {
      assert choices[..i] == choices;
    }
  }

  lemma {:induction false} ContentsPrefixFails(p: Parsed, contents: seq<Content>, i: nat)
    requires i <= |contents| && ParseContents(p, contents[..i]) == Malformed
    ensures ParseContents(p, contents) == Malformed
  {
    if i < |contents| {
      assert contents[..|contents| - 1][..i] == contents[..i];
      ContentsPrefixFails(p, contents[..|contents| - 1], i);
    } else {
      assert contents[..i] == contents;
    }
  }

  /** The fragments of one choice, added to a dictionary in place. */
  method AccumulateTools(calls: seq<Call>, tools: seq<Tool>) returns (partial: seq<Call>, ok: bool)
    ensures ParseTools(Parsed(calls), tools) == if ok then Parsed(partial) else Malformed
  {
    partial, ok := calls, true;
    for i := 0 to |tools|
      invariant ok && ParseTools(Parsed(calls), tools[..i]) == Parsed(partial)
    {
      assert tools[..i + 1][..i] == tools[..i];
      var tool := tools[i];
      if tool == BadTool {
        ToolsPrefixFails(Parsed(calls), tools, i + 1);
        return partial, false;
      }
      partial := AddTool(partial, tool.key, tool.name, tool.arguments);
    }
    assert tools[..|tools|] == tools;
  }

  method AccumulateChoices(calls: seq<Call>, choices: seq<Choice>) returns (partial: seq<Call>, ok: bool)
    ensures ParseChoices(Parsed(calls), choices) == if ok then Parsed(partial) else Malformed
  {
    partial, ok := calls, true;
    for i := 0 to |choices|
      invariant ok && ParseChoices(Parsed(calls), choices[..i]) == Parsed(partial)
    {
      assert choices[..i + 1][..i] == choices[..i];
      var fine := false;
      if choices[i] != BadChoice {
        partial, fine := AccumulateTools(partial, choices[i].tools);
      }
      if !fine {
        ChoicesPrefixFails(Parsed(calls), choices, i + 1);
        return partial, false;
      }
    }
    assert choices[..|choices|] == choices;
  }

  method AccumulateContent(calls: seq<Call>, content: Content) returns (partial: seq<Call>, ok: bool)
    ensures ParseContent(Parsed(calls), content) == if ok then Parsed(partial) else Malformed
  {
    partial, ok := calls, true;
    if content.Data? && content.value.Object? {
      if !content.value.listed {
        return partial, false;
      }
      partial, ok := AccumulateChoices(partial, content.value.choices);
    }
  }

  lemma ContentsByNext(p: Parsed, read: Bytes -> Content, pieces: seq<Bytes>, i: nat)
    requires i < |pieces|
    ensures var contents := ContentsBy(read, pieces);
            ParseContents(p, contents[..i + 1]) == ParseContent(ParseContents(p, contents[..i]), read(pieces[i]))
  {
    var contents := ContentsBy(read, pieces);
    ContentsAt(read, pieces, i);
    assert contents[..i + 1][..i] == contents[..i];
  }

  lemma ContentsNext(p: Parsed, decode: Bytes -> Value, pieces: seq<Bytes>, i: nat)
    requires i < |pieces|
    ensures var contents := Contents(decode, pieces);
            ParseContents(p, contents[..i + 1])
              == ParseContent(ParseContents(p, contents[..i]), ContentOf(decode, pieces[i]))
  {
    ContentsByNext(p, piece => ContentOf(decode, piece), pieces, i);
  }

  /** The whole event stream at once. */
  method ToolCalls(decode: Bytes -> Value, raw: Bytes) returns (parsed: Parsed)
    ensures parsed == ParseContents(Parsed([]), Contents(decode, Blocks(raw)))
  {
    var blocks := Blocks(raw);
    ghost var contents := Contents(decode, blocks);
    var partial: seq<Call> := [];
    for i := 0 to |blocks|
      invariant ParseContents(Parsed([]), contents[..i]) == Parsed(partial)
    {
      ContentsNext(Parsed([]), decode, blocks, i);
      var next, fine := AccumulateContent(partial, ContentOf(decode, blocks[i]));
      if !fine {
        ContentsPrefixFails(Parsed([]), contents, i + 1);
        return Malformed;
      }
      partial := next;
    }
    assert contents[..|contents|] == contents;
    return Parsed(partial);
  }

  // --- When it fails. ---

  predicate BadChoiceIn(choices: seq<Choice>) {
    exists i :: 0 <= i < |choices|
      && (choices[i] == BadChoice || (choices[i].Choice? && BadTool in choices[i].tools))
  }

  /** An object whose choices are no list, or hold one that is malformed. */
  predicate BadValue(value: Value) {
    value.Object? && (!value.listed || BadChoiceIn(value.choices))
  }

  lemma {:induction false} ToolsFailExactlyWhen(calls: seq<Call>, tools: seq<Tool>)
    ensures ParseTools(Parsed(calls), tools) == Malformed <==> BadTool in tools
  {
    if tools != [] {
      ToolsFailExactlyWhen(calls, tools[..|tools| - 1]);
      assert tools == tools[..|tools| - 1] + [tools[|tools| - 1]];
    }
  }

  lemma BadChoiceSnoc(front: seq<Choice>, last: Choice)
    ensures BadChoiceIn(front + [last])
       <==> BadChoiceIn(front) || last == BadChoice || (last.Choice? && BadTool in last.tools)
  {
    var all := front + [last];
    assert all[|front|] == last && forall i :: 0 <= i < |front| ==> all[i] == front[i];
    if i :| 0 <= i < |front| && (front[i] == BadChoice || (front[i].Choice? && BadTool in front[i].tools)) {
      assert all[i] == front[i];
    }
  }

  lemma {:induction false} ChoicesFailExactlyWhen(calls: seq<Call>, choices: seq<Choice>)
    ensures ParseChoices(Parsed(calls), choices) == Malformed <==> BadChoiceIn(choices)
  {
    if choices != [] {
      var front, last := choices[..|choices| - 1], choices[|choices| - 1];
      ChoicesFailExactlyWhen(calls, front);
      BadChoiceSnoc(front, last);
      assert choices == front + [last];
      if ParseChoices(Parsed(calls), front).Parsed? && last.Choice? {
        ToolsFailExactlyWhen(ParseChoices(Parsed(calls), front).calls, last.tools);
      }
    }
  }

  /** The piece has data, other than the end mark, and that decodes to a bad object. */
  predicate FailsAt(decode: Bytes -> Value, piece: Bytes) {
    DataOf(piece) != [] && DataOf(piece) != DONE && BadValue(decode(DataOf(piece)))
  }

  lemma ContentFailsExactlyWhen(decode: Bytes -> Value, calls: seq<Call>, piece: Bytes)
    ensures ParseContent(Parsed(calls), ContentOf(decode, piece)) == Malformed <==> FailsAt(decode, piece)
  {
    var value := decode(DataOf(piece));
    if value.Object? && value.listed {
      ChoicesFailExactlyWhen(calls, value.choices);
    }
  }

  lemma FailsSnoc(decode: Bytes -> Value, front: seq<Bytes>, last: Bytes)
    ensures (exists piece :: piece in front + [last] && FailsAt(decode, piece))
       <==> (exists piece :: piece in front && FailsAt(decode, piece)) || FailsAt(decode, last)
  {
    if piece :| piece in front && FailsAt(decode, piece) {
      assert piece in front + [last];
    }
    assert last in front + [last];
  }

  lemma ContentsSnoc(decode: Bytes -> Value, front: seq<Bytes>, last: Bytes)
    ensures Contents(decode, front + [last]) == Contents(decode, front) + [ContentOf(decode, last)]
  {
    assert (front + [last])[..|front|] == front;
  }

  /** Of the given pieces the parser fails at one that has data, other than the end mark, that decodes to a bad
      object; data that is no object is passed over. */
  lemma {:induction false} ParserFailsExactlyWhen(decode: Bytes -> Value, pieces: seq<Bytes>)
    ensures ParseContents(Parsed([]), Contents(decode, pieces)) == Malformed
            <==> exists piece :: piece in pieces && FailsAt(decode, piece)
  {
    if pieces != [] {
      var front, last := pieces[..|pieces| - 1], pieces[|pieces| - 1];
      assert front + [last] == pieces;
      ParserFailsExactlyWhen(decode, front);
      FailsSnoc(decode, front, last);
      ContentsSnoc(decode, front, last);
      var contents := Contents(decode, front);
      assert (contents + [ContentOf(decode, last)])[..|contents|] == contents;
      if ParseContents(Parsed([]), contents).Parsed? {
        ContentFailsExactlyWhen(decode, ParseContents(Parsed([]), contents).calls, last);
      }
    }
  }

  // --- Blocks and frames say the same. ---

  lemma {:induction false} CutQuiet(s: Bytes)
    requires forall k :: 0 <= k <= |s| ==> !EndsFrame(s, k)
    ensures Cut(s) == Pieces([], s)
  {
    if s != [] {
      var front, b := s[..|s| - 1], s[|s| - 1];
      assert front + [b] == s;
      forall k | 0 <= k <= |front|
        ensures !EndsFrame(front, k)
      {
        EndsFrameStable(front, [b], k);
      }
      CutQuiet(front);
      CutSnoc(front, b);
    }
  }

  lemma CutOne(front: Bytes, b: byte)
    requires EndsFrame(front + [b], |front| + 1) && forall k :: 0 <= k <= |front| ==> !EndsFrame(front + [b], k)
    ensures Cut(front + [b]) == Pieces([front + [b]], [])
  {
    forall k | 0 <= k <= |front|
      ensures !EndsFrame(front, k)
    {
      EndsFrameStable(front, [b], k);
    }
    CutQuiet(front);
    CutSnoc(front, b);
  }

  lemma CutGrows(front: Bytes, b: byte, first: Bytes, behind: Bytes)
    requires Cut(front) == Pieces([first] + Cut(behind).frames, Cut(behind).tail)
    ensures Cut(front + [b]) == Pieces([first] + Cut(behind + [b]).frames, Cut(behind + [b]).tail)
  {
    CutSnoc(front, b);
    CutSnoc(behind, b);
    Associate([first], Cut(behind).frames, [Cut(behind).tail + [b]]);
  }

  lemma SameEnds(front: Bytes, b: byte, to: nat)
    requires EndsFrame(front + [b], to) && forall k :: 0 <= k < to ==> !EndsFrame(front + [b], k)
    requires to <= |front|
    ensures EndsFrame(front, to) && forall k :: 0 <= k < to ==> !EndsFrame(front, k)
  {
    forall k | 0 <= k <= to
      ensures EndsFrame(front, k) == EndsFrame(front + [b], k)
    {
      EndsFrameStable(front, [b], k);
    }
  }

  lemma CutAtEnd(s: Bytes)
    requires EndsFrame(s, |s|) && forall k :: 0 <= k < |s| ==> !EndsFrame(s, k)
    ensures Cut(s) == Pieces([s[..|s|]] + Cut(s[|s|..]).frames, Cut(s[|s|..]).tail)
  {
    var front, b := s[..|s| - 1], s[|s| - 1];
    assert front + [b] == s;
    CutOne(front, b);
    assert s[|s|..] == [] && s[..|s|] == s && [s] + [] == [s];
  }

  lemma SliceSnoc(front: Bytes, b: byte, to: nat)
    requires to <= |front|
    ensures (front + [b])[..to] == front[..to] && (front + [b])[to..] == front[to..] + [b]
  {
  }

  lemma CutBefore(front: Bytes, b: byte, to: nat, s: Bytes)
    requires to <= |front| && s == front + [b]
    requires Cut(front) == Pieces([front[..to]] + Cut(front[to..]).frames, Cut(front[to..]).tail)
    ensures Cut(s) == Pieces([s[..to]] + Cut(s[to..]).frames, Cut(s[to..]).tail)
  {
    SliceSnoc(front, b, to);
    CutGrows(front, b, front[..to], front[to..]);
  }

  /** The first frame, and the frames of what is behind it. */
  lemma {:induction false} CutFirst(s: Bytes, to: nat)
    requires EndsFrame(s, to) && forall k :: 0 <= k < to ==> !EndsFrame(s, k)
    ensures Cut(s) == Pieces([s[..to]] + Cut(s[to..]).frames, Cut(s[to..]).tail)
    decreases |s|
  {
    if to == |s| {
      CutAtEnd(s);
    } else {
      var front, b := s[..|s| - 1], s[|s| - 1];
      assert front + [b] == s;
      SameEnds(front, b, to);
      CutFirst(front, to);
      CutBefore(front, b, to, s);
    }
  }

  lemma ContentsCons(decode: Bytes -> Value, piece: Bytes, pieces: seq<Bytes>)
    ensures Contents(decode, [piece] + pieces) == [ContentOf(decode, piece)] + Contents(decode, pieces)
  {
    ContentsByCons(piece => ContentOf(decode, piece), piece, pieces);
  }

  lemma {:induction false} BlocksSayTheSame(decode: Bytes -> Value, s: Bytes)
    ensures Contents(decode, Blocks(s)) == Contents(decode, Cut(s).frames) + [ContentOf(decode, Cut(s).tail)]
    decreases |s|
  {
    match Search(s)
    case NoMatch =>
      NoMatchNoEnd(s);
      CutQuiet(s);
    case Match(from, to) =>
      MatchEndsFirst(s, from, to);
      CutFirst(s, to);
      SameContent(decode, s, from, to);
      BlocksSayTheSame(decode, s[to..]);
      ContentsCons(decode, s[..from], Blocks(s[to..]));
      ContentsCons(decode, s[..to], Cut(s[to..]).frames);
      Associate([ContentOf(decode, s[..to])], Contents(decode, Cut(s[to..]).frames), [ContentOf(decode, Cut(s).tail)]);
  }

  lemma SameContent(decode: Bytes -> Value, s: Bytes, from: nat, to: nat)
    requires IsMatch(s, from, to)
    ensures ContentOf(decode, s[..to]) == ContentOf(decode, s[..from])
  {
    BreaksAddNoData(s[..from], s[from..to]);
    assert s[..from] + s[from..to] == s[..to];
  }

  // --- The same calls. ---

  lemma {:induction false} SameTools(r: Reading, limit: nat, tools: seq<Tool>)
    requires !ReadTools(r, limit, tools).failed
    ensures ParseTools(Parsed(r.calls), tools) == Parsed(ReadTools(r, limit, tools).calls)
  {
    if tools != [] {
      SameTools(r, limit, tools[..|tools| - 1]);
    }
  }

  lemma {:induction false} SameChoices(r: Reading, limit: nat, choices: seq<Choice>)
    requires !ReadChoices(r, limit, choices).failed
    ensures ParseChoices(Parsed(r.calls), choices) == Parsed(ReadChoices(r, limit, choices).calls)
  {
    if choices != [] {
      var front, last := choices[..|choices| - 1], choices[|choices| - 1];
      SameChoices(r, limit, front);
      SameTools(Account(ReadChoices(r, limit, front).(meaningful := true), limit, last.textBytes), limit, last.tools);
    }
  }

  lemma SameFrame(cfg: Config, f: Filtered, frame: Bytes)
    requires !TakeFrame(cfg, f, frame).failed && TakeFrame(cfg, f, frame).private == NoError
    ensures f.private == NoError
    ensures ParseContent(Parsed(f.calls), cfg.read(frame)) == Parsed(TakeFrame(cfg, f, frame).calls)
  {
    if HasObject(cfg, frame) && !IsPrivate(cfg, frame) {
      var value := cfg.read(frame).value;
      SameChoices(Blank(f, value.usage), cfg.limit, value.choices);
    }
  }

  ghost predicate Reads(cfg: Config, decode: Bytes -> Value) {
    forall frame :: cfg.read(frame) == ContentOf(decode, frame)
  }

  lemma {:induction false} SameFrames(cfg: Config, decode: Bytes -> Value, frames: seq<Bytes>)
    requires Reads(cfg, decode)
    requires !TakeFrames(cfg, IDLE, frames).failed && TakeFrames(cfg, IDLE, frames).private == NoError
    ensures ParseContents(Parsed([]), Contents(decode, frames)) == Parsed(TakeFrames(cfg, IDLE, frames).calls)
  {
    if frames != [] {
      var front, last := frames[..|frames| - 1], frames[|frames| - 1];
      SameFrame(cfg, TakeFrames(cfg, IDLE, front), last);
      SameFrames(cfg, decode, front);
      assert Contents(decode, frames)[..|front|] == Contents(decode, front);
    }
  }

  /** On every response that the filter takes to its end without an error, for every chunking, the calls
      it has accumulated are the calls the batch parser finds in the whole body. */
  lemma {:induction false} AccumulatorRefinesBatch(cfg: Config, decode: Bytes -> Value, chunks: seq<Bytes>)
    requires Reads(cfg, decode)
    requires FeedAll(cfg, chunks).Fed?
    requires FeedAll(cfg, chunks).m.pending == [] && FeedAll(cfg, chunks).m.filtered.private == NoError
    ensures ParseContents(Parsed([]), Contents(decode, Blocks(Flatten(chunks))))
         == Parsed(FeedAll(cfg, chunks).m.filtered.calls)
  {
    var raw := Flatten(chunks);
    ChunksDoNotMatter(cfg, chunks);
    WholeIsFrames(cfg, raw);
    var frames := Cut(raw).frames;
    SameFrames(cfg, decode, frames);
    BlocksSayTheSame(decode, raw);
    var contents := Contents(decode, frames);
    EmptyPieceSaysNothing(decode);
    assert (contents + [Nothing])[..|contents|] == contents;
  }

  lemma EmptyPieceSaysNothing(decode: Bytes -> Value)
    ensures ContentOf(decode, []) == Nothing
  {
  }
}
