/** The incremental decoder of server-sent events: lines end in LF, CR or CRLF and nothing else, an
    event is what a blank line commits, and nothing depends on how the bytes were cut into reads. */
module SseBytes {
  import opened ByteStrings

  const MAX_SSE_BUFFER: nat := 16 * 1024 * 1024
  const DATA: Bytes := [0x64, 0x61, 0x74, 0x61]
  const COLON: byte := 0x3A
  const SPACE: byte := 0x20

  datatype Ending = EndLF | EndCR | EndCRLF

  /** A line as it is recorded; the record that is stored keeps the length of the text only. */
  datatype Line = Line(offset: nat, text: Bytes, ending: Ending)

  function EndingBytes(ending: Ending): (bytes: Bytes)
    ensures 1 <= |bytes| <= 2
  {
    match ending
    case EndLF => [LF]
    case EndCR => [CR]
    case EndCRLF => [CR, LF]
  }

  function EndOf(line: Line): nat {
    line.offset + |line.text| + |EndingBytes(line.ending)|
  }

  predicate IsBreak(b: byte) {
    b == LF || b == CR
  }

  // --- What one line does to the event under construction. ---

  /** The value a line contributes to the event, if it is a data line. */
  datatype Value = NoValue | Value(bytes: Bytes)

  function FirstColon(line: Bytes, from: nat): (i: nat)
    requires from <= |line|
    ensures from <= i <= |line|
    ensures i < |line| ==> line[i] == COLON
    decreases |line| - from
  {
    if from == |line| || line[from] == COLON then from else FirstColon(line, from + 1)
  }

  function DataValue(line: Bytes): Value {
    if line == [] || line[0] == COLON then NoValue
    else
      var i := FirstColon(line, 0);
      if line[..i] != DATA then NoValue
      else if i == |line| then Value([])
      else if i + 1 < |line| && line[i + 1] == SPACE then Value(line[i + 2..])
      else Value(line[i + 1..])
  }

  function Join(parts: seq<Bytes>): Bytes {
    if parts == [] then []
    else if |parts| == 1 then parts[0]
    else Join(parts[..|parts| - 1]) + [LF] + parts[|parts| - 1]
  }

  lemma JoinSnoc(parts: seq<Bytes>, part: Bytes)
    ensures |Join(parts + [part])| == |Join(parts)| + |part| + if parts == [] then 0 else 1
  {
    assert (parts + [part])[..|parts|] == parts;
  }

  /** Pending data lines, events committed so far, and whether the size limit has held. */
  datatype Events = Events(data: seq<Bytes>, out: seq<Bytes>, ok: bool)

  function TakeText(events: Events, text: Bytes): Events {
    if !events.ok then events
    else if text == [] then
      if events.data == [] then events else Events([], events.out + [Join(events.data)], true)
    else
      match DataValue(text)
      case NoValue => events
      case Value(v) => Events(events.data + [v], events.out, |Join(events.data + [v])| <= MAX_SSE_BUFFER)
  }

  // --- The stream one byte at a time: a CR only counts once the next byte shows whether it is a CRLF. ---

  /** Complete lines, where the current line starts, its bytes, whether a CR followed them, and the events. */
  datatype Machine = Machine(done: seq<Line>, at: nat, current: Bytes, afterCR: bool, events: Events)

  function Start(offset: nat, data: seq<Bytes>): Machine {
    Machine([], offset, [], false, Events(data, [], true))
  }

  function Commit(m: Machine, ending: Ending): Machine {
    var line := Line(m.at, m.current, ending);
    Machine(m.done + [line], EndOf(line), [], false, TakeText(m.events, m.current))
  }

  function Push(m: Machine, b: byte): Machine {
    if m.afterCR && b == LF then Commit(m, EndCRLF)
    else
      var n := if m.afterCR then Commit(m, EndCR) else m;
      if b == LF then Commit(n, EndLF)
      else if b == CR then n.(afterCR := true)
      else n.(current := n.current + [b])
  }

  function Scan(m: Machine, s: Bytes): Machine
    decreases |s|
  {
    if s == [] then m else Scan(Push(m, s[0]), s[1..])
  }

  /** The bytes behind the last complete line. */
  function Unfinished(m: Machine): Bytes {
    m.current + if m.afterCR then [CR] else []
  }

  lemma {:induction false} ScanConcat(m: Machine, s: Bytes, t: Bytes)
    ensures Scan(m, s + t) == Scan(Scan(m, s), t)
    decreases |s|
  {
    if s == [] {
      assert s + t == t;
    } else {
      assert (s + t)[1..] == s[1..] + t;
      ScanConcat(Push(m, s[0]), s[1..], t);
    }
  }

  lemma ScanNext(m: Machine, all: Bytes, index: nat)
    requires index < |all|
    ensures Scan(m, all[index..]) == Scan(Push(m, all[index]), all[index + 1..])
  {
    assert all[index..][1..] == all[index + 1..];
  }

  ghost predicate NoBreaks(s: Bytes) {
    forall k :: 0 <= k < |s| ==> !IsBreak(s[k])
  }

  lemma {:induction false} ScanPlain(m: Machine, s: Bytes)
    requires !m.afterCR && NoBreaks(s)
    ensures Scan(m, s) == m.(current := m.current + s)
    decreases |s|
  {
    if s == [] {
      assert m.current + s == m.current;
    } else {
      assert (m.current + [s[0]]) + s[1..] == m.current + s;
      ScanPlain(Push(m, s[0]), s[1..]);
    }
  }

  lemma {:induction false} CurrentIsPlain(m: Machine, s: Bytes)
    requires NoBreaks(m.current)
    ensures NoBreaks(Scan(m, s).current)
    decreases |s|
  {
    if s != [] {
      CurrentIsPlain(Push(m, s[0]), s[1..]);
    }
  }

  /** The machine that a decoder is in between two reads, given what it has kept. */
  lemma ScanUnfinished(m: Machine)
    requires NoBreaks(m.current)
    ensures Scan(Machine(m.done, m.at, [], false, m.events), Unfinished(m)) == m
  {
    var clean := Machine(m.done, m.at, [], false, m.events);
    var tail: Bytes := if m.afterCR then [CR] else [];
    ScanConcat(clean, m.current, tail);
    ScanPlain(clean, m.current);
    assert [] + m.current == m.current;
  }

  // --- Lines and events already out play no part in what follows. ---

  function Behind(done: seq<Line>, out: seq<Bytes>, m: Machine): Machine {
    m.(done := done + m.done, events := m.events.(out := out + m.events.out))
  }

  lemma TakeTextBehind(out: seq<Bytes>, events: Events, text: Bytes)
    ensures TakeText(events.(out := out + events.out), text)
         == TakeText(events, text).(out := out + TakeText(events, text).out)
  {
    Associate(out, events.out, [Join(events.data)]);
  }

  lemma CommitBehind(done: seq<Line>, out: seq<Bytes>, m: Machine, ending: Ending)
    ensures Commit(Behind(done, out, m), ending) == Behind(done, out, Commit(m, ending))
  {
    TakeTextBehind(out, m.events, m.current);
    Associate(done, m.done, [Line(m.at, m.current, ending)]);
  }

  lemma PushBehind(done: seq<Line>, out: seq<Bytes>, m: Machine, b: byte)
    ensures Push(Behind(done, out, m), b) == Behind(done, out, Push(m, b))
  {
    CommitBehind(done, out, m, EndCRLF);
    CommitBehind(done, out, m, EndCR);
    CommitBehind(done, out, if m.afterCR then Commit(m, EndCR) else m, EndLF);
  }

  lemma {:induction false} ScanBehind(done: seq<Line>, out: seq<Bytes>, m: Machine, s: Bytes)
    ensures Scan(Behind(done, out, m), s) == Behind(done, out, Scan(m, s))
    decreases |s|
  {
    if s != [] {
      PushBehind(done, out, m, s[0]);
      ScanBehind(done, out, Push(m, s[0]), s[1..]);
    }
  }

  lemma {:induction false} FailureStays(m: Machine, s: Bytes)
    requires !m.events.ok
    ensures !Scan(m, s).events.ok
    decreases |s|
  {
    if s != [] {
      FailureStays(Push(m, s[0]), s[1..]);
    }
  }

  // --- The lines account for every byte. ---

  /** The bytes a list of lines came from. */
  function Rebuild(lines: seq<Line>): Bytes {
    if lines == [] then []
    else Rebuild(lines[..|lines| - 1]) + (lines[|lines| - 1].text + EndingBytes(lines[|lines| - 1].ending))
  }

  ghost predicate Tiles(lines: seq<Line>, from: nat, to: nat) {
    && (lines != [] ==> lines[0].offset == from)
    && (forall i :: 0 <= i < |lines| - 1 ==> EndOf(lines[i]) == lines[i + 1].offset)
    && to == if lines == [] then from else EndOf(lines[|lines| - 1])
  }

  function Seen(m: Machine): Bytes {
    Rebuild(m.done) + Unfinished(m)
  }

  lemma CommitSees(m: Machine, ending: Ending)
    ensures Seen(Commit(m, ending)) == Rebuild(m.done) + (m.current + EndingBytes(ending))
  {
    var line := Line(m.at, m.current, ending);
    assert (m.done + [line])[..|m.done|] == m.done;
    assert Seen(Commit(m, ending)) == Rebuild(m.done + [line]) + ([] + []);
  }

  lemma PushPlainSees(m: Machine, b: byte)
    requires !m.afterCR
    ensures Seen(Push(m, b)) == Seen(m) + [b]
  {
    assert m.current + [] == m.current;
    Associate(Rebuild(m.done), m.current, [b]);
    if b == LF {
      CommitSees(m, EndLF);
    }
  }

  lemma PushSees(m: Machine, b: byte)
    ensures Seen(Push(m, b)) == Seen(m) + [b]
  {
    if !m.afterCR {
      PushPlainSees(m, b);
    } else if b == LF {
      assert m.current + [CR] + [LF] == m.current + [CR, LF];
      Associate(Rebuild(m.done), m.current + [CR], [LF]);
      CommitSees(m, EndCRLF);
    } else {
      CommitSees(m, EndCR);
      PushPlainSees(Commit(m, EndCR), b);
    }
  }

  /** Lines, line endings and the unfinished bytes are the input, byte for byte. */
  lemma {:induction false} LinesRebuild(m: Machine, s: Bytes)
    ensures Seen(Scan(m, s)) == Seen(m) + s
    decreases |s|
  {
    if s == [] {
      assert Seen(m) + s == Seen(m);
    } else {
      PushSees(m, s[0]);
      LinesRebuild(Push(m, s[0]), s[1..]);
      assert (Seen(m) + [s[0]]) + s[1..] == Seen(m) + s;
    }
  }

  lemma CommitTiles(m: Machine, from: nat, ending: Ending)
    requires Tiles(m.done, from, m.at)
    ensures Tiles(Commit(m, ending).done, from, Commit(m, ending).at)
  {
  }

  /** The line records tile the committed part of the stream: no gap, no overlap; and `at` plus the
      unfinished bytes is where the stream has got to. */
  lemma {:induction false} LinesTile(m: Machine, from: nat, s: Bytes)
    requires Tiles(m.done, from, m.at)
    ensures Tiles(Scan(m, s).done, from, Scan(m, s).at)
    ensures Scan(m, s).at + |Unfinished(Scan(m, s))| == m.at + |Unfinished(m)| + |s|
    decreases |s|
  {
    if s != [] {
      CommitTiles(m, from, EndCRLF);
      CommitTiles(m, from, EndCR);
      CommitTiles(if m.afterCR then Commit(m, EndCR) else m, from, EndLF);
      LinesTile(Push(m, s[0]), from, s[1..]);
    }
  }

  // --- The decoder. ---

  datatype Outcome = TooLarge | Decoded(events: seq<Bytes>, frames: seq<Line>)

  class Decoder {
    var buffer: Bytes
    var data: seq<Bytes>
    var offset: nat
    var scan: nat
    var eventSize: nat

    ghost predicate Valid()
      reads this
    {
      && Scan(Start(offset, data), buffer).done == []
      && scan <= |buffer| && NoBreaks(buffer[..scan])
      && eventSize == |Join(data)|
    }

    constructor ()
      ensures Valid()
      ensures buffer == [] && data == [] && offset == 0
    {
      buffer, data, offset, scan, eventSize := [], [], 0, 0, 0;
    }

    /** One line of the event under construction; `fits` is false where the source raises. */
    method TakeLine(text: Bytes) returns (payload: seq<Bytes>, fits: bool)
      requires eventSize == |Join(data)|
      modifies this`data, this`eventSize
      ensures eventSize == |Join(data)|
      ensures TakeText(Events(old(data), [], true), text) == Events(data, payload, fits)
    {
      payload, fits := [], true;
      if text == [] {
        if data != [] {
          payload := [Join(data)];
          data, eventSize := [], 0;
        }
      } else {
        var value := DataValue(text);
        if value.Value? {
          JoinSnoc(data, value.bytes);
          eventSize := eventSize + |value.bytes| + if data == [] then 0 else 1;
          data := data + [value.bytes];
          fits := eventSize <= MAX_SSE_BUFFER;
        }
      }
    }

    /** The line from `start` whose end is found at `index`. */
    method TakeCommitted(start: nat, index: nat, initial: Machine, done: seq<Line>, out: seq<Bytes>)
      returns (line: Line, payload: seq<Bytes>, end: nat, fits: bool)
      requires eventSize == |Join(data)|
      requires Scanned(initial, buffer, Machine(done, offset + start, [], false, Events(data, out, true)), start, index)
      requires index < |buffer| && IsBreak(buffer[index]) && !(buffer[index] == CR && index + 1 == |buffer|)
      modifies this`data, this`eventSize
      ensures index < end <= |buffer| && line.offset == offset + start && eventSize == |Join(data)|
      ensures fits ==> Scanned(initial, buffer, Machine(done + [line], offset + end, [], false,
                                                        Events(data, out + payload, true)), end, end)
      ensures !fits ==> !Scan(initial, buffer).events.ok
    {
      ghost var m := Machine(done, offset + start, [], false, Events(data, out, true));
      ghost var pending := data;
      var ending := EndingAt(buffer, index);
      end := index + |EndingBytes(ending)|;
      var text := buffer[start..index];
      ScanLine(initial, buffer, m, start, index, ending, end);
      payload, fits := TakeLine(text);
      CommitTakes(m, text, ending, pending, data, payload, fits);
      line := Line(offset + start, text, ending);
      if !fits {
        LineFails(initial, buffer, Commit(m.(current := text), ending), end);
      }
    }

    /** The index loop over the buffer: every line whose end is certain, up to the first that raises. */
    method TakeLines() returns (events: seq<Bytes>, frames: seq<Line>, start: nat, index: nat, fits: bool)
      requires scan <= |buffer| && NoBreaks(buffer[..scan]) && eventSize == |Join(data)|
      modifies this`data, this`eventSize
      ensures var end := Scan(Start(offset, old(data)), buffer);
              && (fits <==> end.events.ok)
              && (fits ==>
                    AtEnd(end, buffer, Machine(frames, offset + start, [], false, Events(data, events, true)),
                          start, index))
      ensures eventSize == |Join(data)|
    {
      events, frames, fits := [], [], true;
      start, index := 0, scan;
      var initial := Start(offset, data);
      ScanBegins(initial, buffer, index);
      while index < |buffer|
        invariant Scanned(initial, buffer, Machine(frames, offset + start, [], false, Events(data, events, true)),
                          start, index)
        invariant eventSize == |Join(data)|
        decreases |buffer| - index
      {
        var value := buffer[index];
        if !IsBreak(value) {
          ScanByte(initial, buffer, Machine(frames, offset + start, [], false, Events(data, events, true)),
                   start, index);
          index := index + 1;
          continue;
        }
        if value == CR && index + 1 == |buffer| {
          break;
        }
        var line, payload;
        line, payload, index, fits := TakeCommitted(start, index, initial, frames, events);
        if !fits {
          return;
        }
        frames, events, start := frames + [line], events + payload, index;
      }
      ScanEnds(initial, buffer, Machine(frames, offset + start, [], false, Events(data, events, true)), start, index);
    }

    method Feed(chunk: Bytes) returns (outcome: Outcome)
      requires Valid()
      modifies this
      ensures var end := Scan(Start(old(offset), old(data)), old(buffer) + chunk);
              && (outcome == TooLarge <==> !end.events.ok || |Unfinished(end)| > MAX_SSE_BUFFER)
              && (outcome.Decoded? ==>
                    && Valid()
                    && buffer == Unfinished(end) && offset == end.at && data == end.events.data
                    && outcome.events == end.events.out && outcome.frames == end.done)
    {
      ghost var kept := buffer;
      buffer := buffer + chunk;
      assert buffer[..scan] == kept[..scan];
      var events, frames, start, index, fits := TakeLines();
      if !fits {
        return TooLarge;
      }
      KeepsNoLine(Machine(frames, offset + start, [], false, Events(data, events, true)), buffer, start, index);
      buffer := buffer[start..];
      offset := offset + start;
      scan := index - start;
      if |buffer| > MAX_SSE_BUFFER {
        return TooLarge;
      }
      return Decoded(events, frames);
    }

    /** End of stream: only a blank line commits, so whatever is left is a gap. */
    method Finish() returns (incomplete: bool, pendingLineBytes: nat, pendingDataLines: nat)
      modifies this
      ensures incomplete <==> old(buffer) != [] || old(data) != []
      ensures pendingLineBytes == |old(buffer)| && pendingDataLines == |old(data)|
      ensures buffer == [] && data == [] && offset == old(offset)
    {
      incomplete := buffer != [] || data != [];
      pendingLineBytes, pendingDataLines := |buffer|, |data|;
      buffer, data := [], [];
    }
  }

  function EndingAt(all: Bytes, index: nat): Ending
    requires index < |all| && IsBreak(all[index]) && !(all[index] == CR && index + 1 == |all|)
  {
    if all[index] == LF then EndLF else if all[index + 1] == LF then EndCRLF else EndCR
  }

  /** The loop of `Feed`: the machine at the start of the current line, which runs up to the current
      byte; a CR is only passed once the byte behind it is known. */
  ghost predicate Scanned(initial: Machine, all: Bytes, m: Machine, start: nat, index: nat) {
    && start <= index <= |all|
    && NoBreaks(all[start..index])
    && m.current == [] && !m.afterCR
    && Scan(initial, all) == Scan(m.(current := all[start..index]), all[index..])
  }

  lemma ScanBegins(initial: Machine, all: Bytes, index: nat)
    requires initial.current == [] && !initial.afterCR
    requires index <= |all| && NoBreaks(all[..index])
    ensures Scanned(initial, all, initial, 0, index)
  {
    ScanConcat(initial, all[..index], all[index..]);
    ScanPlain(initial, all[..index]);
    assert all[..index] + all[index..] == all && [] + all[..index] == all[..index] == all[0..index];
  }

  lemma CommitTakes(
      m: Machine, text: Bytes, ending: Ending, before: seq<Bytes>, after: seq<Bytes>, payload: seq<Bytes>, fits: bool)
    requires m.current == [] && !m.afterCR && m.events.ok && m.events.data == before
    requires TakeText(Events(before, [], true), text) == Events(after, payload, fits)
    ensures Commit(m.(current := text), ending)
         == Machine(m.done + [Line(m.at, text, ending)], m.at + |text| + |EndingBytes(ending)|, [], false,
                    Events(after, m.events.out + payload, fits))
  {
    TakeTextBehind(m.events.out, Events(before, [], true), text);
    assert m.events.out + [] == m.events.out;
  }

  lemma ScanByte(initial: Machine, all: Bytes, m: Machine, start: nat, index: nat)
    requires Scanned(initial, all, m, start, index) && index < |all| && !IsBreak(all[index])
    ensures Scanned(initial, all, m, start, index + 1)
  {
    ScanNext(m.(current := all[start..index]), all, index);
    assert all[start..index + 1] == all[start..index] + [all[index]];
  }

  lemma ScanLine(initial: Machine, all: Bytes, m: Machine, start: nat, index: nat, ending: Ending, end: nat)
    requires Scanned(initial, all, m, start, index)
    requires index < |all| && IsBreak(all[index]) && !(all[index] == CR && index + 1 == |all|)
    requires ending == EndingAt(all, index) && end == index + |EndingBytes(ending)|
    ensures Scanned(initial, all, Commit(m.(current := all[start..index]), ending), end, end)
  {
    var before := m.(current := all[start..index]);
    var after := Commit(before, ending);
    assert all[end..end] == [] && after.(current := []) == after;
    ScanNext(before, all, index);
    if all[index] == CR {
      ScanNext(Push(before, CR), all, index + 1);
      ScanNext(after, all, index + 1);
    }
  }

  lemma LineFails(initial: Machine, all: Bytes, m: Machine, end: nat)
    requires Scanned(initial, all, m, end, end) && !m.events.ok
    ensures !Scan(initial, all).events.ok
  {
    FailureStays(m.(current := all[end..end]), all[end..]);
  }

  /** The loop is over: at most a last CR is behind the current byte. */
  ghost predicate AtEnd(end: Machine, all: Bytes, m: Machine, start: nat, index: nat) {
    && start <= index <= |all| && NoBreaks(all[start..index])
    && (index == |all| || (all[index] == CR && index + 1 == |all|))
    && end == m.(current := all[start..index], afterCR := index < |all|)
    && Unfinished(end) == all[start..]
  }

  lemma ScanEnds(initial: Machine, all: Bytes, m: Machine, start: nat, index: nat)
    requires Scanned(initial, all, m, start, index)
    requires index == |all| || (all[index] == CR && index + 1 == |all|)
    ensures AtEnd(Scan(initial, all), all, m, start, index)
  {
    var last := m.(current := all[start..index]);
    if index == |all| {
      assert Scan(last, all[index..]) == last;
      assert all[start..index] + [] == all[start..];
    } else {
      ScanNext(last, all, index);
      assert Scan(Push(last, CR), all[index + 1..]) == Push(last, CR);
      assert all[start..] == all[start..index] + [CR];
    }
  }

  lemma KeepsNoLine(m: Machine, all: Bytes, start: nat, index: nat)
    requires start <= index <= |all|
    requires AtEnd(m.(current := all[start..index], afterCR := index < |all|), all, m, start, index)
    ensures Scan(Start(m.at, m.events.data), all[start..]).done == []
    ensures all[start..][..index - start] == all[start..index]
  {
    var end := Start(m.at, m.events.data).(current := all[start..index], afterCR := index < |all|);
    ScanUnfinished(end);
    assert Unfinished(end) == all[start..];
  }

  // --- Every way of cutting the stream into reads. ---

  /** What a decoder has kept and what it has given out since the start of the stream. */
  datatype Stream = Stream(buffer: Bytes, data: seq<Bytes>, offset: nat, events: seq<Bytes>, frames: seq<Line>)

  datatype Fed = Failed | Fed(stream: Stream)

  /** One call of `Decoder.Feed`. */
  function FeedOne(stream: Stream, chunk: Bytes): Fed {
    var end := Scan(Start(stream.offset, stream.data), stream.buffer + chunk);
    if !end.events.ok || |Unfinished(end)| > MAX_SSE_BUFFER then Failed
    else Fed(Stream(Unfinished(end), end.events.data, end.at, stream.events + end.events.out, stream.frames + end.done))
  }

  function FeedAll(chunks: seq<Bytes>): Fed {
    if chunks == [] then Fed(Stream([], [], 0, [], []))
    else
      match FeedAll(chunks[..|chunks| - 1])
      case Failed => Failed
      case Fed(stream) => FeedOne(stream, chunks[|chunks| - 1])
  }

  /** The decoding of a whole stream, without any chunks. */
  function Whole(input: Bytes): Machine {
    Scan(Start(0, []), input)
  }

  function Expected(input: Bytes): Stream {
    var m := Whole(input);
    Stream(Unfinished(m), m.events.data, m.at, m.events.out, m.done)
  }

  /** What decides acceptance: the events fit, and the unfinished line fits at every read boundary. */
  ghost predicate Accepted(chunks: seq<Bytes>) {
    && Whole(Flatten(chunks)).events.ok
    && forall k :: 0 <= k <= |chunks| ==> |Unfinished(Whole(Flatten(chunks[..k])))| <= MAX_SSE_BUFFER
  }

  lemma ExpectedConcat(input: Bytes, chunk: Bytes)
    requires Whole(input).events.ok
    ensures var m := Whole(input + chunk);
            FeedOne(Expected(input), chunk)
            == if m.events.ok && |Unfinished(m)| <= MAX_SSE_BUFFER then Fed(Expected(input + chunk)) else Failed
  {
    var m := Whole(input);
    ScanConcat(Start(0, []), input, chunk);
    CurrentIsPlain(Start(0, []), input);
    var clean := Start(m.at, m.events.data);
    ScanUnfinished(clean.(current := m.current, afterCR := m.afterCR));
    ScanConcat(clean, Unfinished(m), chunk);
    ScanBehind(m.done, m.events.out, clean.(current := m.current, afterCR := m.afterCR), chunk);
    assert m.done + [] == m.done && m.events.out + [] == m.events.out;
  }

  lemma PrefixOk(input: Bytes, chunk: Bytes)
    requires Whole(input + chunk).events.ok
    ensures Whole(input).events.ok
  {
    ScanConcat(Start(0, []), input, chunk);
    if !Whole(input).events.ok {
      FailureStays(Whole(input), chunk);
    }
  }

  lemma AcceptedSnoc(chunks: seq<Bytes>, chunk: Bytes)
    ensures var m := Whole(Flatten(chunks + [chunk]));
            Accepted(chunks + [chunk]) <==> Accepted(chunks) && m.events.ok && |Unfinished(m)| <= MAX_SSE_BUFFER
  {
    var all := chunks + [chunk];
    FlattenSnoc(chunks, chunk);
    assert all[..|all|] == all;
    assert forall k :: 0 <= k <= |chunks| ==> all[..k] == chunks[..k];
    if Whole(Flatten(all)).events.ok {
      PrefixOk(Flatten(chunks), chunk);
    }
    if Accepted(all) {
      forall k | 0 <= k <= |chunks|
        ensures |Unfinished(Whole(Flatten(chunks[..k])))| <= MAX_SSE_BUFFER
      {
        assert all[..k] == chunks[..k];
      }
    }
  }

  /** Events, line records, pending data and unfinished bytes depend on the bytes alone; acceptance
      depends on the chunks only through the length of the unfinished line at each boundary. */
  lemma {:induction false} ChunksDoNotMatter(chunks: seq<Bytes>)
    ensures FeedAll(chunks) == if Accepted(chunks) then Fed(Expected(Flatten(chunks))) else Failed
  {
    if chunks != [] {
      var front, last := chunks[..|chunks| - 1], chunks[|chunks| - 1];
      assert front + [last] == chunks;
      ChunksDoNotMatter(front);
      AcceptedSnoc(front, last);
      if Accepted(front) {
        ExpectedConcat(Flatten(front), last);
      }
    }
  }

  /** Reading more at a time never turns success into failure, and gives the same result. */
  lemma {:induction false} MergeIsAccepted(chunks: seq<Bytes>, i: nat)
    requires i + 1 < |chunks| && FeedAll(chunks).Fed?
    ensures FeedAll(Merge(chunks, i)) == FeedAll(chunks)
  {
    var merged := Merge(chunks, i);
    ChunksDoNotMatter(chunks);
    ChunksDoNotMatter(merged);
    MergeFlatten(chunks, i);
    forall k | 0 <= k <= |merged|
      ensures |Unfinished(Whole(Flatten(merged[..k])))| <= MAX_SSE_BUFFER
    {
      MergePrefix(chunks, i, k);
    }
  }
}
